/**
 The loop of the RTP sender. Other threads push packets at any time: `turns` says what has been
 pushed, and which audio frame has been read, when each turn looks at the queue.
 */
module RtpSending {
  import opened Wrappers
  import opened Samples
  import opened Rtp

  const FRAME_SIZE := 160

  datatype Pushed = Pushed(marker: bool, payloadType: int, data: seq<Byte>)

  datatype Turn = Turn(frame: seq<Byte>, pushes: seq<Pushed>)

  function Rest(queue: seq<Pushed>): seq<Pushed> {
    if queue == [] then [] else queue[1..]
  }

  function Head(queue: seq<Pushed>): seq<Pushed> {
    if queue == [] then [] else [queue[0]]
  }

  /** The queue that turn `k` finds. */
  function QueueAt(initial: seq<Pushed>, turns: seq<Turn>, k: nat): seq<Pushed>
    requires k < |turns|
  {
    (if k == 0 then initial else Rest(QueueAt(initial, turns, k - 1))) + turns[k].pushes
  }

  /** All packets pushed before turn `k` has looked at the queue. */
  function AllPushed(initial: seq<Pushed>, turns: seq<Turn>, k: nat): seq<Pushed>
    requires k < |turns|
  {
    (if k == 0 then initial else AllPushed(initial, turns, k - 1)) + turns[k].pushes
  }

  /** The pushed packets sent in the first `n` turns. */
  function PushedSent(initial: seq<Pushed>, turns: seq<Turn>, n: nat): seq<Pushed>
    requires n <= |turns|
  {
    if n == 0 then []
    else
      var queue := QueueAt(initial, turns, n - 1);
      PushedSent(initial, turns, n - 1) + Head(queue)
  }

  /** What has been sent, then what waits, is all that was pushed, in order. */
  ghost predicate InPushedOrder(initial: seq<Pushed>, turns: seq<Turn>, k: nat)
    requires k < |turns|
  {
    PushedSent(initial, turns, k + 1) + Rest(QueueAt(initial, turns, k)) == AllPushed(initial, turns, k)
  }

  /** First in, first out. */
  lemma {:induction false} FirstInFirstOut(initial: seq<Pushed>, turns: seq<Turn>, k: nat)
    requires k < |turns|
    ensures InPushedOrder(initial, turns, k)
  {
    if k == 0 {
      FirstTurn(initial, turns);
    } else {
      FirstInFirstOut(initial, turns, k - 1);
      NextTurn(initial, turns, k);
    }
  }

  lemma FirstTurn(initial: seq<Pushed>, turns: seq<Turn>)
    requires |turns| > 0
    ensures InPushedOrder(initial, turns, 0)
  {
    TurnKeepsOrder([], initial, turns[0].pushes);
    assert [] + initial == initial;
  }

  lemma NextTurn(initial: seq<Pushed>, turns: seq<Turn>, k: nat)
    requires 0 < k < |turns| && InPushedOrder(initial, turns, k - 1)
    ensures InPushedOrder(initial, turns, k)
  {
    TurnKeepsOrder(PushedSent(initial, turns, k), Rest(QueueAt(initial, turns, k - 1)), turns[k].pushes);
  }

  lemma TurnKeepsOrder(sent: seq<Pushed>, before: seq<Pushed>, pushes: seq<Pushed>)
    ensures (sent + Head(before + pushes)) + Rest(before + pushes) == (sent + before) + pushes
  {
    var queue := before + pushes;
    assert Head(queue) + Rest(queue) == queue;
  }

  /** The marker and payload type that the one packet record has before turn `k`. */
  function Carried(initial: seq<Pushed>, turns: seq<Turn>, codec: int, k: nat): (bool, int)
    requires k <= |turns|
  {
    if k == 0 then (false, codec)
    else
      var before, queue := Carried(initial, turns, codec, k - 1), QueueAt(initial, turns, k - 1);
      if queue != [] then (queue[0].marker, queue[0].payloadType)
      else if before.1 != codec then (false, codec)
      else before
  }

  /** The pushed packet sent last before turn `k`. */
  function LastSent(initial: seq<Pushed>, turns: seq<Turn>, k: nat): Option<Pushed>
    requires k <= |turns|
  {
    if k == 0 then None
    else
      var queue := QueueAt(initial, turns, k - 1);
      if queue != [] then Some(queue[0]) else LastSent(initial, turns, k - 1)
  }

  lemma {:induction false} CarriedFromLast(initial: seq<Pushed>, turns: seq<Turn>, codec: int, k: nat)
    requires k <= |turns|
    ensures var last, now := LastSent(initial, turns, k), Carried(initial, turns, codec, k);
      if last.None? then now == (false, codec)
      else
        || now == (last.value.marker, last.value.payloadType)
        || (last.value.payloadType != codec && now == (false, codec))
  {
    if k > 0 { CarriedFromLast(initial, turns, codec, k - 1); }
  }

  /** An audio packet has the marker bit exactly if the pushed packet sent last had it, and the type
      of the audio codec. So it never does as long as marked packets have another type. */
  lemma AudioMarker(initial: seq<Pushed>, turns: seq<Turn>, codec: int, k: nat)
    requires k < |turns| && QueueAt(initial, turns, k) == []
    ensures var last := LastSent(initial, turns, k);
      Carried(initial, turns, codec, k + 1).0 <==> last.Some? && last.value.marker && last.value.payloadType == codec
  {
    CarriedFromLast(initial, turns, codec, k);
  }

  /** A marked packet of the codec's own type marks the audio that follows. */
  lemma AudioCanBeMarked(frame: seq<Byte>, codec: int)
    ensures var turns := [Turn(frame, [Pushed(true, codec, [])]), Turn(frame, [])];
      QueueAt([], turns, 1) == [] && Carried([], turns, codec, 2).0
  {
    var turns := [Turn(frame, [Pushed(true, codec, [])]), Turn(frame, [])];
    assert QueueAt([], turns, 0) == [Pushed(true, codec, [])];
    assert QueueAt([], turns, 1) == [];
    AudioMarker([], turns, codec, 1);
  }

  // Packets on the wire

  /** A byte as an octet of the network. */
  ghost function Octet(b: Byte): nat {
    var x: int := b;
    if x < 0 then x + 256 else x
  }

  /** The octets of a number, the highest first. */
  ghost function Number(bytes: seq<Byte>): nat {
    if bytes == [] then 0 else Number(bytes[..|bytes| - 1]) * 256 + Octet(bytes[|bytes| - 1])
  }

  lemma OctetIsUnsigned(b: Byte)
    ensures Octet(b) == Unsigned(b)
  {}

  lemma NumberOfTwo(s: seq<Byte>)
    requires |s| == 2
    ensures Number(s) == Unsigned(s[0]) * 256 + Unsigned(s[1])
  {
    OctetIsUnsigned(s[0]);
    OctetIsUnsigned(s[1]);
    assert s[..1][..0] == [];
    assert Number(s[..1]) == Octet(s[0]);
  }

  lemma NumberOfFour(s: seq<Byte>)
    requires |s| == 4
    ensures Number(s) == Word(s[0], s[1], s[2], s[3])
  {
    var t := s[..3];
    NumberOfTwo(s[..2]);
    OctetIsUnsigned(s[2]);
    OctetIsUnsigned(s[3]);
    assert t[..2] == s[..2];
    assert Number(t) == Number(s[..2]) * 256 + Unsigned(s[2]);
    assert Number(s) == Number(t) * 256 + Unsigned(s[3]);
  }

  /** What the record holds when packet `k` is sent. */
  ghost predicate SendsTurn(f: Fields, initial: seq<Pushed>, turns: seq<Turn>, codec: int, start: int, ssrc: int,
                            k: nat)
    requires k < |turns|
  {
    var queue := QueueAt(initial, turns, k);
    && f.version == 2 && !f.padding && !f.extension && f.csrcCount == 0
    && f.sequenceNumber == ToInt(start + k) && f.timestamp == ToInt(FRAME_SIZE * (k + 1)) && f.ssrc == ssrc
    && (f.marker, f.payloadType) == Carried(initial, turns, codec, k + 1)
    && f.data == if queue == [] then turns[k].frame else queue[0].data
  }

  /** The record, the queue and the counters before turn `k`. */
  ghost predicate Ready(f: Fields, queue: seq<Pushed>, sequenceNumber: int, timestamp: int, initial: seq<Pushed>,
                        turns: seq<Turn>, codec: int, start: int, ssrc: int, k: nat)
    requires k <= |turns|
  {
    && f.version == 2 && !f.padding && !f.extension && f.csrcCount == 0 && f.ssrc == ssrc
    && (f.marker, f.payloadType) == Carried(initial, turns, codec, k)
    && queue == (if k == 0 then initial else Rest(QueueAt(initial, turns, k - 1)))
    && sequenceNumber == ToInt(start + k) && timestamp == ToInt(FRAME_SIZE * k)
  }

  /** Packet `k` on the wire, counted from 0: version 2, the marker and payload type of the pushed packet,
      or the marker carried so far and the codec's type; sequence number, timestamp and source in
      network order; then the data. */
  ghost predicate PacketOk(packet: seq<Byte>, initial: seq<Pushed>, turns: seq<Turn>, codec: int, start: int,
                           ssrc: int, k: nat)
    requires k < |turns|
  {
    var queue := QueueAt(initial, turns, k);
    && |packet| >= 12 && Octet(packet[0]) == 0x80
    && Octet(packet[1]) == (if queue != [] then (if queue[0].marker then 128 else 0) + queue[0].payloadType
                            else (if Carried(initial, turns, codec, k + 1).0 then 128 else 0) + codec) % 256
    && Number(packet[2..4]) == (start + k) % 0x1_0000
    && Number(packet[4..8]) == (160 * (k + 1)) % 0x1_0000_0000
    && Number(packet[8..12]) == ssrc % 0x1_0000_0000
    && packet[12..] == (if queue != [] then queue[0].data else turns[k].frame)
  }

  ghost predicate AllOk(sent: seq<seq<Byte>>, initial: seq<Pushed>, turns: seq<Turn>, codec: int, start: int,
                        ssrc: int, n: nat)
    requires n <= |turns|
  {
    |sent| == n && forall k | 0 <= k < n :: PacketOk(sent[k], initial, turns, codec, start, ssrc, k)
  }

  lemma AllOkNext(sent: seq<seq<Byte>>, more: seq<seq<Byte>>, initial: seq<Pushed>, turns: seq<Turn>, codec: int,
                  start: int, ssrc: int, n: nat)
    requires n < |turns| && AllOk(sent, initial, turns, codec, start, ssrc, n) && |more| == n + 1 && sent <= more
    requires PacketOk(more[n], initial, turns, codec, start, ssrc, n)
    ensures AllOk(more, initial, turns, codec, start, ssrc, n + 1)
  {
    forall k | 0 <= k < n ensures PacketOk(more[k], initial, turns, codec, start, ssrc, k) {
      assert more[k] == sent[k] && PacketOk(sent[k], initial, turns, codec, start, ssrc, k);
    }
  }

  lemma ToIntModulo(x: int)
    ensures ToInt(x) % TWO_32 == x % TWO_32 && ToInt(x) % TWO_16 == x % TWO_16
  {
    var k := Overflow(x);
    var q, r := x / TWO_32, x % TWO_32;
    DivIs(x + k * TWO_32, q + k, TWO_32, r);
    var q', r' := x / TWO_16, x % TWO_16;
    DivIs(x + k * TWO_32, q' + k * TWO_16, TWO_16, r');
  }

  lemma ToIntNext(x: int, y: int)
    ensures ToInt(ToInt(x) + y) == ToInt(x + y)
  {
    var k := Overflow(x);
    var q, r := (x + y) / TWO_32, (x + y) % TWO_32;
    DivIs(x + k * TWO_32 + y, q + k, TWO_32, r);
  }

  lemma SequenceOnWire(n: int)
    ensures Unsigned(ToByte(n / 256)) * 256 + Unsigned(ToByte(n % 256)) == n % TWO_16
  {
    UnsignedByte(n / 256);
    UnsignedByte(n % 256);
    DivIs(n, n / 256 / 256, TWO_16, n / 256 % 256 * 256 + n % 256);
  }

  lemma SentOk(f: Fields, initial: seq<Pushed>, turns: seq<Turn>, codec: int, start: int, ssrc: int, k: nat)
    requires k < |turns| && SendsTurn(f, initial, turns, codec, start, ssrc, k)
    ensures f.csrcCount == 0 && PacketOk(EncodedBytes(f), initial, turns, codec, start, ssrc, k)
  {
    var packet := EncodedBytes(f);
    assert CsrcBytes(f.csrcList, 0) == [];
    assert packet == Header(f) + f.data;
    assert packet[12..] == f.data;
    HeaderOnWire(f, packet);
    ToIntModulo(start + k);
    ToIntModulo(FRAME_SIZE * (k + 1));
    TypeCarried(initial, turns, codec, k);
  }

  /** The fixed header of a packet without padding, extension and contributing sources. */
  lemma HeaderOnWire(f: Fields, packet: seq<Byte>)
    requires |packet| >= 12 && packet[..12] == Header(f)
    requires f.version == 2 && !f.padding && !f.extension && f.csrcCount == 0
    ensures Octet(packet[0]) == 0x80 && Octet(packet[1]) == ((if f.marker then 128 else 0) + f.payloadType) % 256
    ensures Number(packet[2..4]) == f.sequenceNumber % TWO_16 && Number(packet[4..8]) == f.timestamp % TWO_32
    ensures Number(packet[8..12]) == f.ssrc % TWO_32
  {
    var header := packet[..12];
    assert packet[0] == header[0] && packet[1] == header[1];
    UnsignedByte(128);
    UnsignedByte(Bit(f.marker) * 128 + f.payloadType);
    assert packet[2..4] == header[2..4] == [ToByte(f.sequenceNumber / 256), ToByte(f.sequenceNumber % 256)];
    assert packet[4..8] == header[4..8] == WordBytes(f.timestamp);
    assert packet[8..12] == header[8..12] == WordBytes(f.ssrc);
    NumberOfTwo(packet[2..4]);
    SequenceOnWire(f.sequenceNumber);
    NumberOfFour(packet[4..8]);
    WordBack(f.timestamp);
    NumberOfFour(packet[8..12]);
    WordBack(f.ssrc);
  }

  lemma TypeCarried(initial: seq<Pushed>, turns: seq<Turn>, codec: int, k: nat)
    requires k < |turns|
    ensures Carried(initial, turns, codec, k + 1).1 ==
      if QueueAt(initial, turns, k) == [] then codec else QueueAt(initial, turns, k)[0].payloadType
  {}

  class RtpSender {
    const codecType: int
    var pushedPackets: seq<Pushed>
    // The datagrams that have left.
    var sent: seq<seq<Byte>>

    constructor (codecType: int)
      ensures this.codecType == codecType && pushedPackets == [] && sent == []
    {
      this.codecType, pushedPackets, sent := codecType, [], [];
    }

    /** `pushPackets` */
    method PushPackets(packets: seq<Pushed>)
      modifies this`pushedPackets
      ensures pushedPackets == old(pushedPackets) + packets
    {
      pushedPackets := pushedPackets + packets;
    }

    /** `run`, for as many turns as there are: the k-th packet has sequence number `start + k` and
        timestamp 160 * (k + 1), and the oldest pushed packet if there is one, else the audio frame. */
    method Run(turns: seq<Turn>, start: int, ssrc: int)
      requires sent == []
      modifies this
      ensures |sent| == |turns|
      ensures forall k | 0 <= k < |turns| :: PacketOk(sent[k], old(pushedPackets), turns, codecType, start, ssrc, k)
    {
      ghost var initial := pushedPackets;
      var rtpPacket := new RtpPacket();
      rtpPacket.version, rtpPacket.payloadType := 2, codecType;
      rtpPacket.sequenceNumber, rtpPacket.ssrc := start, ssrc;
      var sequenceNumber, timestamp := ToInt(start), 0;
      for k := 0 to |turns|
        invariant fresh(rtpPacket) && AllOk(sent, initial, turns, codecType, start, ssrc, k)
        invariant Ready(rtpPacket.View(), pushedPackets, sequenceNumber, timestamp, initial, turns, codecType, start,
                        ssrc, k)
      {
        ghost var before := sent;
        sequenceNumber, timestamp := SendTurn(rtpPacket, sequenceNumber, timestamp, turns, k, initial, start, ssrc);
        AllOkNext(before, sent, initial, turns, codecType, start, ssrc, k);
      }
    }

    method SendTurn(rtpPacket: RtpPacket, sequenceNumber: int, timestamp: int, turns: seq<Turn>, k: nat,
                    ghost initial: seq<Pushed>, ghost start: int, ghost ssrc: int)
      returns (nextNumber: int, nextTimestamp: int)
      requires k < |turns|
      requires Ready(rtpPacket.View(), pushedPackets, sequenceNumber, timestamp, initial, turns, codecType, start,
                     ssrc, k)
      modifies this, rtpPacket
      ensures Ready(rtpPacket.View(), pushedPackets, nextNumber, nextTimestamp, initial, turns, codecType, start, ssrc,
                    k + 1)
      ensures |sent| == |old(sent)| + 1 && old(sent) <= sent
      ensures PacketOk(sent[|old(sent)|], initial, turns, codecType, start, ssrc, k)
    {
      nextNumber, nextTimestamp := Prepare(rtpPacket, sequenceNumber, timestamp, turns, k, initial, start, ssrc);
      SentOk(rtpPacket.View(), initial, turns, codecType, start, ssrc, k);
      Send(rtpPacket);
      assert sent == old(sent) + [EncodedBytes(rtpPacket.View())];
    }

    method Prepare(rtpPacket: RtpPacket, sequenceNumber: int, timestamp: int, turns: seq<Turn>, k: nat,
                   ghost initial: seq<Pushed>, ghost start: int, ghost ssrc: int)
      returns (nextNumber: int, nextTimestamp: int)
      requires k < |turns|
      requires Ready(rtpPacket.View(), pushedPackets, sequenceNumber, timestamp, initial, turns, codecType, start,
                     ssrc, k)
      modifies this`pushedPackets, rtpPacket
      ensures SendsTurn(rtpPacket.View(), initial, turns, codecType, start, ssrc, k)
      ensures Ready(rtpPacket.View(), pushedPackets, nextNumber, nextTimestamp, initial, turns, codecType, start, ssrc,
                    k + 1)
    {
      PushPackets(turns[k].pushes);
      assert pushedPackets == QueueAt(initial, turns, k);
      Fill(rtpPacket, turns[k].frame);
      rtpPacket.sequenceNumber := sequenceNumber;
      ToIntNext(start + k, 1);
      nextNumber := ToInt(sequenceNumber + 1);
      ToIntNext(FRAME_SIZE * k, FRAME_SIZE);
      nextTimestamp := ToInt(timestamp + FRAME_SIZE);
      rtpPacket.timestamp := nextTimestamp;
    }

    /** A pushed packet goes first; audio takes the record back to the codec's type. */
    method Fill(rtpPacket: RtpPacket, trimmedBuffer: seq<Byte>)
      modifies this`pushedPackets, rtpPacket`marker, rtpPacket`payloadType, rtpPacket`data
      ensures pushedPackets == Rest(old(pushedPackets))
      ensures (rtpPacket.marker, rtpPacket.payloadType) ==
        if old(pushedPackets) != [] then (old(pushedPackets)[0].marker, old(pushedPackets)[0].payloadType)
        else if old(rtpPacket.payloadType) != codecType then (false, codecType)
        else (old(rtpPacket.marker), codecType)
      ensures rtpPacket.data == if old(pushedPackets) == [] then trimmedBuffer else old(pushedPackets)[0].data
    {
      if |pushedPackets| > 0 {
        var pushedPacket := pushedPackets[0];
        pushedPackets := pushedPackets[1..];
        rtpPacket.marker := pushedPacket.marker;
        rtpPacket.payloadType := pushedPacket.payloadType;
        rtpPacket.data := pushedPacket.data;
      } else {
        if rtpPacket.payloadType != codecType {
          rtpPacket.payloadType := codecType;
          rtpPacket.marker := false;
        }
        rtpPacket.data := trimmedBuffer;
      }
    }

    method Send(rtpPacket: RtpPacket)
      requires rtpPacket.csrcCount == 0
      modifies this`sent
      ensures sent == old(sent) + [EncodedBytes(rtpPacket.View())]
    {
      var packet := Encode(rtpPacket);
      sent := sent + [packet[..]];
    }
  }
}
