/** The packet format shared by both H.264 senders: the 12-byte fixed RTP
    header of section 5.1 of RFC 3550, the single NAL unit packet of
    section 5.6 of RFC 6184 and the FU-A fragmentation unit of section 5.8
    of RFC 6184.

    Bytes are integers in 0..255, so the senders' masks and shifts are
    written with division and remainder: `b & 0x1F` is `b % 0x20`,
    `b & 0xE0` is `b / 0x20 * 0x20`, `x >> 8 & 0xFF` is `x / 0x100 % 0x100`,
    and an `|` of disjoint bit fields is a sum. */
module Rtp {
  import opened Wrappers

  type byte = x: int | 0 <= x < 0x100
  type uint16 = x: int | 0 <= x < 0x1_0000
  type uint32 = x: int | 0 <= x < 0x1_0000_0000

  /** Largest RTP payload either sender puts in one packet. */
  const MaxPayload: nat := 1100
  /** NAL bytes carried by a full FU-A fragment: the budget less the FU
      indicator and the FU header. */
  const ChunkSize: nat := MaxPayload - 2
  /** Dynamic payload type used for H.264. */
  const PayloadType: byte := 96
  /** NAL unit type that marks an FU-A fragment. */
  const FuAType: byte := 28
  const HeaderSize: nat := 12

  function Min(a: nat, b: nat): nat
  {
    if a <= b then a else b
  }

  // ----- Bit fields -----

  /** `b & 0x1F`: the type field of a NAL header or of an FU header. */
  function TypeBits(b: byte): byte
  {
    b % 0x20
  }

  /** `b & 0xE0`: the forbidden bit and the NRI field of a NAL header. */
  function FlagBits(b: byte): byte
  {
    b / 0x20 * 0x20
  }

  /** Bit 7: the S bit of an FU header, the M bit of header byte 1. */
  predicate TopBit(b: byte)
  {
    b >= 0x80
  }

  /** Bit 6: the E bit of an FU header. */
  predicate EndBit(b: byte)
  {
    b / 0x40 % 2 == 1
  }

  /** Bit 5: the reserved bit of an FU header, which must be 0. */
  predicate ReservedBit(b: byte)
  {
    b / 0x20 % 2 == 1
  }

  // ----- Big-endian integers -----

  function BigEndian16(x: uint16): seq<byte>
  {
    [x / 0x100, x % 0x100]
  }

  function ReadBigEndian16(bs: seq<byte>): uint16
    requires |bs| == 2
  {
    bs[0] as int * 0x100 + bs[1] as int
  }

  /** The four bytes of `x`, most significant first: the high half then the
      low half. */
  function BigEndian32(x: uint32): seq<byte>
  {
    BigEndian16(x / 0x1_0000) + BigEndian16(x % 0x1_0000)
  }

  function ReadBigEndian32(bs: seq<byte>): uint32
    requires |bs| == 4
  {
    ReadBigEndian16(bs[..2]) * 0x1_0000 + ReadBigEndian16(bs[2..])
  }

  lemma BigEndian16RoundTrip(x: uint16)
    ensures ReadBigEndian16(BigEndian16(x)) == x
  {
  }

  lemma ReadBigEndian16RoundTrip(bs: seq<byte>)
    requires |bs| == 2
    ensures BigEndian16(ReadBigEndian16(bs)) == bs
  {
  }

  /** Writing a 32-bit value big-endian and reading it back gives the value. */
  lemma BigEndian32RoundTrip(x: uint32)
    ensures ReadBigEndian32(BigEndian32(x)) == x
  {
    var bs := BigEndian32(x);
    assert bs[..2] == BigEndian16(x / 0x1_0000);
    assert bs[2..] == BigEndian16(x % 0x1_0000);
    BigEndian16RoundTrip(x / 0x1_0000);
    BigEndian16RoundTrip(x % 0x1_0000);
  }

  /** Reading four bytes big-endian and writing the value back gives the bytes. */
  lemma ReadBigEndian32RoundTrip(bs: seq<byte>)
    requires |bs| == 4
    ensures BigEndian32(ReadBigEndian32(bs)) == bs
  {
    var hi, lo := ReadBigEndian16(bs[..2]), ReadBigEndian16(bs[2..]);
    assert ReadBigEndian32(bs) / 0x1_0000 == hi;
    assert ReadBigEndian32(bs) % 0x1_0000 == lo;
    ReadBigEndian16RoundTrip(bs[..2]);
    ReadBigEndian16RoundTrip(bs[2..]);
    assert bs == bs[..2] + bs[2..];
  }

  /** The four bytes are `x >> 24`, `x >> 16`, `x >> 8` and `x`, each
      masked with 0xFF. */
  lemma BigEndian32Bytes(x: uint32)
    ensures BigEndian32(x) == [x / 0x100_0000 % 0x100, x / 0x1_0000 % 0x100, x / 0x100 % 0x100, x % 0x100]
  {
    var hi, lo := x / 0x1_0000, x % 0x1_0000;
    DivModUnique(x, 0x100_0000, hi / 0x100, hi % 0x100 * 0x1_0000 + lo);
    DivModUnique(x, 0x100, hi * 0x100 + lo / 0x100, lo % 0x100);
    DivModUnique(hi * 0x100 + lo / 0x100, 0x100, hi, lo / 0x100);
  }

  /** Division is determined by a quotient and an in-range remainder. */
  lemma DivModUnique(x: int, d: int, q: int, r: int)
    requires d > 0 && 0 <= r < d && x == q * d + r
    ensures x / d == q && x % d == r
  {
    var q', r' := x / d, x % d;
    assert x == q' * d + r';
    var k := q - q';
    assert k * d == q * d - q' * d;
    if k > 0 {
      MulAtLeast(k, d);
    } else if k < 0 {
      MulAtLeast(-k, d);
    }
  }

  lemma {:induction false} MulAtLeast(k: int, d: int)
    requires k >= 1 && d > 0
    ensures k * d >= d
  {
    if k > 1 {
      MulAtLeast(k - 1, d);
      assert k * d == (k - 1) * d + d;
    }
  }

  // ----- The fixed header -----

  /** The fields a sender chooses for one packet; version 2, no padding, no
      extension, no CSRC and payload type 96 are constant. */
  datatype Header = Header(marker: bool, sequence: uint16, timestamp: uint32, ssrc: uint32)

  /** Byte 0 is 0x80, byte 1 is the marker bit over payload type 96, then
      the sequence number, timestamp and SSRC, big-endian. */
  function EncodeHeader(h: Header): (bs: seq<byte>)
    ensures |bs| == HeaderSize
  {
    [0x80, (if h.marker then 0x80 else 0x00) + PayloadType % 0x80]
      + BigEndian16(h.sequence) + BigEndian32(h.timestamp) + BigEndian32(h.ssrc)
  }

  /** What a receiver reads from the first 12 bytes of a packet; None when
      they are not a header this sender can have written. */
  function DecodeHeader(bs: seq<byte>): Option<Header>
  {
    if |bs| < HeaderSize || bs[0] != 0x80 || bs[1] % 0x80 != PayloadType then None
    else Some(Header(TopBit(bs[1]), ReadBigEndian16(bs[2..4]),
                     ReadBigEndian32(bs[4..8]), ReadBigEndian32(bs[8..12])))
  }

  /** Decoding an encoded header recovers every field. */
  lemma HeaderRoundTrip(h: Header)
    ensures DecodeHeader(EncodeHeader(h)) == Some(h)
  {
    var first: seq<byte> := [0x80, (if h.marker then 0x80 else 0x00) + PayloadType % 0x80];
    var s, t, c := BigEndian16(h.sequence), BigEndian32(h.timestamp), BigEndian32(h.ssrc);
    var bs := EncodeHeader(h);
    assert bs == ((first + s) + t) + c;
    SplitAt(first + s + t, c);
    SplitAt(first + s, t);
    SplitAt(first, s);
    assert bs[2..4] == s;
    assert bs[4..8] == t;
    assert bs[8..12] == c;
    BigEndian16RoundTrip(h.sequence);
    BigEndian32RoundTrip(h.timestamp);
    BigEndian32RoundTrip(h.ssrc);
  }

  /** The twelve header bytes one by one, each field shifted and masked
      with 0xFF as a sender writes them into its buffer. */
  lemma EncodeHeaderBytes(h: Header)
    ensures EncodeHeader(h)
         == [0x80, (if h.marker then 0x80 else 0x00) + PayloadType % 0x80,
             h.sequence / 0x100 % 0x100, h.sequence % 0x100,
             h.timestamp / 0x100_0000 % 0x100, h.timestamp / 0x1_0000 % 0x100,
             h.timestamp / 0x100 % 0x100, h.timestamp % 0x100,
             h.ssrc / 0x100_0000 % 0x100, h.ssrc / 0x1_0000 % 0x100,
             h.ssrc / 0x100 % 0x100, h.ssrc % 0x100]
  {
    BigEndian32Bytes(h.timestamp);
    BigEndian32Bytes(h.ssrc);
  }

  /** The two parts of a concatenation are its slices at the seam. */
  lemma SplitAt<T>(x: seq<T>, y: seq<T>)
    ensures (x + y)[..|x|] == x && (x + y)[|x|..] == y
  {
  }

  /** Every 12 bytes the receiver accepts are exactly the encoding of what
      it read. */
  lemma DecodedHeaderRoundTrip(bs: seq<byte>)
    requires |bs| == HeaderSize && DecodeHeader(bs).Some?
    ensures EncodeHeader(DecodeHeader(bs).value) == bs
  {
    ReadBigEndian16RoundTrip(bs[2..4]);
    ReadBigEndian32RoundTrip(bs[4..8]);
    ReadBigEndian32RoundTrip(bs[8..12]);
    assert bs == bs[..2] + bs[2..4] + bs[4..8] + bs[8..12];
  }

  /** A packet: the header followed by the payload. */
  function Packet(h: Header, payload: seq<byte>): seq<byte>
  {
    EncodeHeader(h) + payload
  }

  function ParsePacket(p: seq<byte>): Option<(Header, seq<byte>)>
  {
    match DecodeHeader(p)
    case None => None
    case Some(h) => Some((h, p[HeaderSize..]))
  }

  /** A packet is 12 + |payload| bytes and parses back into its header and
      its payload. */
  lemma PacketRoundTrip(h: Header, payload: seq<byte>)
    ensures |Packet(h, payload)| == HeaderSize + |payload|
    ensures ParsePacket(Packet(h, payload)) == Some((h, payload))
  {
    var p := Packet(h, payload);
    assert p[..HeaderSize] == EncodeHeader(h);
    HeaderRoundTrip(h);
    assert DecodeHeader(p) == DecodeHeader(p[..HeaderSize]);
    assert p[HeaderSize..] == payload;
  }

  // ----- FU-A -----

  /** `(nalHeader & 0xE0) | 28`. */
  function FuIndicator(nalHeader: byte): byte
  {
    FlagBits(nalHeader) + FuAType
  }

  /** `nalHeader & 0x1F`, with 0x80 added on the first fragment and 0x40 on
      the last. */
  function FuHeader(nalHeader: byte, first: bool, last: bool): byte
  {
    TypeBits(nalHeader) + (if first then 0x80 else 0) + (if last then 0x40 else 0)
  }

  /** The two FU bytes: the indicator keeps F and NRI and says FU-A; the
      header keeps the NAL type, has S exactly on the first fragment, E
      exactly on the last, and R clear; together they rebuild the NAL
      header. */
  lemma FuBytes(nalHeader: byte, first: bool, last: bool)
    ensures TypeBits(FuIndicator(nalHeader)) == FuAType
    ensures FlagBits(FuIndicator(nalHeader)) == FlagBits(nalHeader)
    ensures TypeBits(FuHeader(nalHeader, first, last)) == TypeBits(nalHeader)
    ensures TopBit(FuHeader(nalHeader, first, last)) <==> first
    ensures EndBit(FuHeader(nalHeader, first, last)) <==> last
    ensures !ReservedBit(FuHeader(nalHeader, first, last))
    ensures FlagBits(FuIndicator(nalHeader)) + TypeBits(FuHeader(nalHeader, first, last)) == nalHeader
  {
  }

  /** One RTP payload with the marker bit it is sent with. */
  datatype RtpPayload = RtpPayload(bytes: seq<byte>, marker: bool)

  /** The FU-A fragments for the NAL bytes after the header from `offset`
      on: up to ChunkSize bytes each, FU indicator and FU header in front,
      marker on the last only. */
  function Fragments(nal: seq<byte>, offset: nat): seq<RtpPayload>
    requires 0 < |nal| && offset <= |nal| - 1
    decreases |nal| - 1 - offset
  {
    var payloadSize := |nal| - 1;
    if offset == payloadSize then []
    else
      var chunkSize := Min(ChunkSize, payloadSize - offset);
      var isLast := offset + chunkSize == payloadSize;
      [RtpPayload([FuIndicator(nal[0]), FuHeader(nal[0], offset == 0, isLast)]
                    + nal[1 + offset .. 1 + offset + chunkSize], isLast)]
        + Fragments(nal, offset + chunkSize)
  }

  /** The RTP payloads for one NAL unit: the unit itself when it fits in
      MaxPayload bytes, its FU-A fragments otherwise. */
  function Payloads(nal: seq<byte>): seq<RtpPayload>
    requires 0 < |nal|
  {
    if |nal| <= MaxPayload then [RtpPayload(nal, true)] else Fragments(nal, 0)
  }

  /** Sequence number `k` packets after `start`, modulo 2^16. */
  function SequenceAfter(start: uint16, k: nat): uint16
  {
    (start + k) % 0x1_0000
  }

  /** The packets for a list of payloads: consecutive sequence numbers from
      `start`, one timestamp and one SSRC. */
  function Frame(ps: seq<RtpPayload>, start: uint16, timestamp: uint32, ssrc: uint32): seq<seq<byte>>
  {
    seq(|ps|, i requires 0 <= i < |ps| =>
      Packet(Header(ps[i].marker, SequenceAfter(start, i), timestamp, ssrc), ps[i].bytes))
  }

  // ----- The receiving side -----

  predicate HasFuPrefix(ps: seq<RtpPayload>)
  {
    forall i :: 0 <= i < |ps| ==> |ps[i].bytes| >= 2
  }

  /** The fragments' NAL bytes in order, each stripped of its 2-byte FU prefix. */
  function Reassemble(ps: seq<RtpPayload>): seq<byte>
    requires HasFuPrefix(ps)
  {
    if ps == [] then [] else ps[0].bytes[2..] + Reassemble(ps[1..])
  }

  /** A receiver for this sender: a lone payload is the NAL unit; two or more
      are FU-A fragments whose NAL header is rebuilt from F and NRI of the
      first indicator and the type in the first FU header. */
  function Depacketize(ps: seq<RtpPayload>): Option<seq<byte>>
  {
    if |ps| == 1 then Some(ps[0].bytes)
    else if |ps| >= 2 && HasFuPrefix(ps) then
      Some([FlagBits(ps[0].bytes[0]) + TypeBits(ps[0].bytes[1])] + Reassemble(ps))
    else None
  }

  // ----- Properties of the fragmenter -----

  /** The number of fragments is the remaining byte count divided by
      ChunkSize, rounded up. */
  lemma {:induction false} FragmentCount(nal: seq<byte>, offset: nat)
    requires 0 < |nal| && offset <= |nal| - 1
    ensures |Fragments(nal, offset)| == (|nal| - 1 - offset + ChunkSize - 1) / ChunkSize
    decreases |nal| - 1 - offset
  {
    var payloadSize := |nal| - 1;
    if offset < payloadSize {
      var chunkSize := Min(ChunkSize, payloadSize - offset);
      FragmentCount(nal, offset + chunkSize);
    }
  }

  /** Fragment `i` of `fs`, cut from `nal`, is FU indicator, FU header and 1
      to ChunkSize NAL bytes, full unless it is the last; S is set when it
      is fragment 0 of a list that starts at `offset` 0, E and the marker
      when it is the last. */
  predicate FragmentAt(nal: seq<byte>, fs: seq<RtpPayload>, i: nat, offset: nat)
    requires 0 < |nal| && i < |fs|
  {
    && 3 <= |fs[i].bytes| <= MaxPayload
    && (i < |fs| - 1 ==> |fs[i].bytes| == MaxPayload)
    && fs[i].bytes[0] == FuIndicator(nal[0])
    && fs[i].bytes[1] == FuHeader(nal[0], offset == 0 && i == 0, i == |fs| - 1)
    && fs[i].marker == (i == |fs| - 1)
  }

  /** Every fragment from `offset` on has the FU-A layout; only fragment 0
      of the whole unit (offset 0) opens it. */
  lemma {:induction false} FragmentFields(nal: seq<byte>, offset: nat)
    requires 0 < |nal| && offset <= |nal| - 1
    ensures forall i :: 0 <= i < |Fragments(nal, offset)| ==>
      FragmentAt(nal, Fragments(nal, offset), i, offset)
    decreases |nal| - 1 - offset
  {
    var payloadSize := |nal| - 1;
    if offset < payloadSize {
      var chunkSize := Min(ChunkSize, payloadSize - offset);
      var next := offset + chunkSize;
      FragmentFields(nal, next);
      var fs, rest := Fragments(nal, offset), Fragments(nal, next);
      assert fs == [fs[0]] + rest;
      assert |rest| == 0 <==> next == payloadSize;
      assert next < payloadSize ==> chunkSize == ChunkSize;
      assert FragmentAt(nal, fs, 0, offset);
      forall i | 1 <= i < |fs|
        ensures FragmentAt(nal, fs, i, offset)
      {
        assert fs[i] == rest[i - 1];
        assert FragmentAt(nal, rest, i - 1, next);
      }
    }
  }

  /** Stripping the FU prefixes and joining the fragments in order gives back
      the NAL bytes after the header from `offset` on. */
  lemma {:induction false} FragmentsReassemble(nal: seq<byte>, offset: nat)
    requires 0 < |nal| && offset <= |nal| - 1
    ensures HasFuPrefix(Fragments(nal, offset))
    ensures Reassemble(Fragments(nal, offset)) == nal[1 + offset..]
    decreases |nal| - 1 - offset
  {
    var payloadSize := |nal| - 1;
    if offset < payloadSize {
      var chunkSize := Min(ChunkSize, payloadSize - offset);
      var next := offset + chunkSize;
      FragmentsReassemble(nal, next);
      var fs := Fragments(nal, offset);
      assert fs[1..] == Fragments(nal, next);
      assert fs[0].bytes[2..] == nal[1 + offset .. 1 + next];
      assert nal[1 + offset..] == nal[1 + offset .. 1 + next] + nal[1 + next..];
    }
  }

  /** The packetizer's whole contract on one NAL unit.  Up to MaxPayload
      bytes: one payload, the unit verbatim, marker set.  Longer: at least
      two FU-A fragments, as many as (n - 1) / ChunkSize rounded up, each
      but the last carrying ChunkSize bytes, S on the first only, E and
      marker on the last only, and their data joined is the unit without
      its header byte. */
  lemma PayloadsContract(nal: seq<byte>)
    requires 0 < |nal|
    ensures |nal| <= MaxPayload ==> Payloads(nal) == [RtpPayload(nal, true)]
    ensures |nal| > MaxPayload ==>
      var fs := Payloads(nal);
      && |fs| == (|nal| - 1 + ChunkSize - 1) / ChunkSize
      && |fs| >= 2
      && HasFuPrefix(fs)
      && Reassemble(fs) == nal[1..]
      && forall i :: 0 <= i < |fs| ==> FragmentAt(nal, fs, i, 0)
  {
    if |nal| > MaxPayload {
      FragmentCount(nal, 0);
      FragmentFields(nal, 0);
      FragmentsReassemble(nal, 0);
    }
  }

  /** The receiver recovers every NAL unit the packetizer splits. */
  lemma DepacketizeRoundTrip(nal: seq<byte>)
    requires 0 < |nal|
    ensures Depacketize(Payloads(nal)) == Some(nal)
  {
    PayloadsContract(nal);
    if |nal| > MaxPayload {
      var fs := Payloads(nal);
      FuBytes(nal[0], true, |fs| == 1);
      assert nal == [nal[0]] + nal[1..];
    }
  }

  // ----- Properties of the framing -----

  /** Packet `i` of a frame parses back to the payload's marker, sequence
      number `start + i` modulo 2^16, the frame's timestamp and SSRC, and
      the payload. */
  lemma FramePacket(ps: seq<RtpPayload>, start: uint16, timestamp: uint32, ssrc: uint32, i: nat)
    requires i < |ps|
    ensures |Frame(ps, start, timestamp, ssrc)| == |ps|
    ensures ParsePacket(Frame(ps, start, timestamp, ssrc)[i])
         == Some((Header(ps[i].marker, SequenceAfter(start, i), timestamp, ssrc), ps[i].bytes))
  {
    PacketRoundTrip(Header(ps[i].marker, SequenceAfter(start, i), timestamp, ssrc), ps[i].bytes);
  }

  /** Two calls in a row number their packets as one call would: the second
      starts where the first left the counter. */
  lemma FramesChain(ps1: seq<RtpPayload>, ps2: seq<RtpPayload>, start: uint16, timestamp1: uint32,
                    timestamp2: uint32, ssrc: uint32)
    ensures SequenceAfter(SequenceAfter(start, |ps1|), |ps2|) == SequenceAfter(start, |ps1| + |ps2|)
    ensures forall i :: 0 <= i < |ps2| ==>
      Frame(ps2, SequenceAfter(start, |ps1|), timestamp2, ssrc)[i]
        == Packet(Header(ps2[i].marker, SequenceAfter(start, |ps1| + i), timestamp2, ssrc), ps2[i].bytes)
  {
    forall i | 0 <= i <= |ps2|
      ensures SequenceAfter(SequenceAfter(start, |ps1|), i) == SequenceAfter(start, |ps1| + i)
    {
      ModAdd(start + |ps1|, i);
    }
  }

  lemma ModAdd(a: nat, b: nat)
    ensures (a % 0x1_0000 + b) % 0x1_0000 == (a + b) % 0x1_0000
  {
    var q := a / 0x1_0000;
    assert a == q * 0x1_0000 + a % 0x1_0000;
    assert a + b == q * 0x1_0000 + (a % 0x1_0000 + b);
  }

  /** The first fragment from `offset` on, as the loop builds it. */
  lemma FragmentsUnfold(nal: seq<byte>, offset: nat)
    requires 0 < |nal| && offset < |nal| - 1
    ensures var chunkSize := Min(ChunkSize, |nal| - 1 - offset);
      var isLast := offset + chunkSize == |nal| - 1;
      Fragments(nal, offset)
        == [RtpPayload([FuIndicator(nal[0]), FuHeader(nal[0], offset == 0, isLast)]
                         + nal[1 + offset .. 1 + offset + chunkSize], isLast)]
           + Fragments(nal, offset + chunkSize)
  {
  }

  /** A frame grows by one packet, numbered after the ones before it. */
  lemma FrameAppend(ps: seq<RtpPayload>, p: RtpPayload, start: uint16, timestamp: uint32, ssrc: uint32)
    ensures Frame(ps + [p], start, timestamp, ssrc)
         == Frame(ps, start, timestamp, ssrc)
            + [Packet(Header(p.marker, SequenceAfter(start, |ps|), timestamp, ssrc), p.bytes)]
  {
  }

  /** One pass of a fragmenting loop: the fragment it builds at `offset` is
      the next one of the unit, its packet extends the frame sent so far,
      and the counter moves on by one. */
  lemma FragmentStep(nal: seq<byte>, offset: nat, chunkSize: nat, fragment: RtpPayload, done: seq<RtpPayload>,
                     all: seq<RtpPayload>, start: uint16, timestamp: uint32, ssrc: uint32)
    requires 0 < |nal| && offset < |nal| - 1
    requires chunkSize == Min(ChunkSize, |nal| - 1 - offset)
    requires fragment == RtpPayload([FuIndicator(nal[0]), FuHeader(nal[0], offset == 0, offset + chunkSize == |nal| - 1)]
                                    + nal[1 + offset .. 1 + offset + chunkSize], offset + chunkSize == |nal| - 1)
    requires done + Fragments(nal, offset) == all
    ensures Fragments(nal, offset)[0] == fragment
    ensures (done + [fragment]) + Fragments(nal, offset + chunkSize) == all
    ensures Frame(done + [fragment], start, timestamp, ssrc)
         == Frame(done, start, timestamp, ssrc)
            + [Packet(Header(fragment.marker, SequenceAfter(start, |done|), timestamp, ssrc), fragment.bytes)]
    ensures SequenceAfter(SequenceAfter(start, |done|), 1) == SequenceAfter(start, |done| + 1)
  {
    FragmentsUnfold(nal, offset);
    assert Fragments(nal, offset) == [fragment] + Fragments(nal, offset + chunkSize);
    assert done + ([fragment] + Fragments(nal, offset + chunkSize))
        == (done + [fragment]) + Fragments(nal, offset + chunkSize);
    FrameAppend(done, fragment, start, timestamp, ssrc);
    ModAdd(start + |done|, 1);
  }
}
