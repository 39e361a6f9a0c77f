/** The stand-alone H.264 sender: one NAL unit in, one RTP packet or a run
    of FU-A fragments out over the video data channel. */
module RtpSender {
  import opened Rtp

  /** Writes the 12 header bytes and the payload into a fresh buffer, byte by
      byte, as both senders do. */
  method BuildPacket(h: Header, payload: seq<byte>) returns (packet: seq<byte>)
    ensures packet == Packet(h, payload)
  {
    var buffer := new byte[HeaderSize + |payload|];
    WriteHeader(buffer, h);
    forall i | 0 <= i < |payload| {
      buffer[HeaderSize + i] := payload[i];
    }
    packet := buffer[..];
    assert packet[HeaderSize..] == payload;
    assert packet == packet[..HeaderSize] + packet[HeaderSize..];
  }

  /** The twelve header writes: version 2, the marker bit over payload type
      96, then sequence number, timestamp and SSRC, most significant byte
      first. */
  method WriteHeader(buffer: array<byte>, h: Header)
    requires buffer.Length >= HeaderSize
    modifies buffer
    ensures buffer[..HeaderSize] == EncodeHeader(h)
  {
    buffer[0] := 0x80;
    buffer[1] := (if h.marker then 0x80 else 0x00) + PayloadType % 0x80;
    buffer[2] := h.sequence / 0x100 % 0x100;
    buffer[3] := h.sequence % 0x100;
    buffer[4] := h.timestamp / 0x100_0000 % 0x100;
    buffer[5] := h.timestamp / 0x1_0000 % 0x100;
    buffer[6] := h.timestamp / 0x100 % 0x100;
    buffer[7] := h.timestamp % 0x100;
    buffer[8] := h.ssrc / 0x100_0000 % 0x100;
    buffer[9] := h.ssrc / 0x1_0000 % 0x100;
    buffer[10] := h.ssrc / 0x100 % 0x100;
    buffer[11] := h.ssrc % 0x100;
    EncodeHeaderBytes(h);
  }

  class RtcRtpSender {
    /** The data channel exists and reports itself open. */
    var channelOpen: bool
    var sequenceNumber: uint16
    const ssrc: uint32
    var currentTimestamp: uint32
    /** Every packet handed to the data channel, in order. */
    var sent: seq<seq<byte>>

    /** `ssrc` stands for the value drawn from the random device. */
    constructor (ssrc: uint32)
      ensures this.ssrc == ssrc
      ensures sequenceNumber == 0 && currentTimestamp == 0
      ensures !channelOpen && sent == []
    {
      this.ssrc := ssrc;
      sequenceNumber := 0;
      currentTimestamp := 0;
      channelOpen := false;
      sent := [];
    }

    /** The transport reports the data channel open. */
    method OnDataChannelOpen()
      modifies this`channelOpen
      ensures channelOpen
    {
      channelOpen := true;
    }

    /** The transport reports the data channel closed. */
    method OnDataChannelClosed()
      modifies this`channelOpen
      ensures !channelOpen
    {
      channelOpen := false;
    }

    /** Sends one packet carrying the current sequence number, then advances
        the counter by one modulo 2^16. */
    method SendRtpPacket(payload: seq<byte>, marker: bool)
      modifies this`sequenceNumber, this`sent
      ensures sent == old(sent) + [Packet(Header(marker, old(sequenceNumber), currentTimestamp, ssrc), payload)]
      ensures sequenceNumber == SequenceAfter(old(sequenceNumber), 1)
    {
      var packet := BuildPacket(Header(marker, sequenceNumber, currentTimestamp, ssrc), payload);
      sequenceNumber := (sequenceNumber + 1) % 0x1_0000;
      sent := sent + [packet];
    }

    /** Packetizes one NAL unit with the given 90 kHz timestamp.  With no
        open channel, or an empty unit, nothing is sent and nothing changes.
        Otherwise the packets sent are the frame of the unit's RTP payloads,
        numbered on from the current counter, which ends that many packets
        further on. */
    method SendH264(nal: seq<byte>, timestamp: uint32)
      modifies this`sequenceNumber, this`currentTimestamp, this`sent
      ensures !channelOpen || |nal| == 0 ==>
        && sent == old(sent)
        && sequenceNumber == old(sequenceNumber)
        && currentTimestamp == old(currentTimestamp)
      ensures channelOpen && |nal| > 0 ==>
        && currentTimestamp == timestamp
        && sent == old(sent) + Frame(Payloads(nal), old(sequenceNumber), timestamp, ssrc)
        && sequenceNumber == SequenceAfter(old(sequenceNumber), |Payloads(nal)|)
    {
      if !channelOpen || |nal| == 0 {
        return;
      }
      currentTimestamp := timestamp;
      if |nal| <= MaxPayload {
        SendRtpPacket(nal, true);
        assert Frame([RtpPayload(nal, true)], old(sequenceNumber), timestamp, ssrc)
            == [Packet(Header(true, old(sequenceNumber), timestamp, ssrc), nal)];
        return;
      }
      SendFragments(nal);
    }

    /** The fragmenting branch of SendH264: FU-A fragments of the bytes
        after the NAL header, numbered on from the current counter. */
    method SendFragments(nal: seq<byte>)
      requires |nal| > MaxPayload
      modifies this`sequenceNumber, this`sent
      ensures sent == old(sent) + Frame(Fragments(nal, 0), old(sequenceNumber), currentTimestamp, ssrc)
      ensures sequenceNumber == SequenceAfter(old(sequenceNumber), |Fragments(nal, 0)|)
    {
      ghost var before := sent;
      ghost var start := sequenceNumber;
      var payloadSize := |nal| - 1;
      var offset := 0;
      ghost var done: seq<RtpPayload> := [];
      while offset < payloadSize
        invariant 0 <= offset <= payloadSize
        invariant done + Fragments(nal, offset) == Fragments(nal, 0)
        invariant sent == before + Frame(done, start, currentTimestamp, ssrc)
        invariant sequenceNumber == SequenceAfter(start, |done|)
        decreases payloadSize - offset
      {
        ghost var next := done + [Fragments(nal, offset)[0]];
        var chunkSize := SendFragment(nal, offset, done, Fragments(nal, 0), before, start);
        done := next;
        offset := offset + chunkSize;
      }
    }

    /** One pass of the fragmenting loop: the fragment of up to ChunkSize
        bytes from `offset`, FU indicator and FU header in front, sent as
        the next packet.  `done`, `all`, `before` and `start` are the
        fragments already sent, all of the unit's fragments, the packets
        before the unit and the counter at its start. */
    method SendFragment(nal: seq<byte>, offset: nat, ghost done: seq<RtpPayload>, ghost all: seq<RtpPayload>,
                        ghost before: seq<seq<byte>>, ghost start: uint16) returns (chunkSize: nat)
      requires |nal| > MaxPayload && offset < |nal| - 1
      requires done + Fragments(nal, offset) == all
      requires sent == before + Frame(done, start, currentTimestamp, ssrc)
      requires sequenceNumber == SequenceAfter(start, |done|)
      modifies this`sequenceNumber, this`sent
      ensures chunkSize == Min(ChunkSize, |nal| - 1 - offset)
      ensures (done + [Fragments(nal, offset)[0]]) + Fragments(nal, offset + chunkSize) == all
      ensures sent == before + Frame(done + [Fragments(nal, offset)[0]], start, currentTimestamp, ssrc)
      ensures sequenceNumber == SequenceAfter(start, |done| + 1)
    {
      var nalHeader := nal[0];
      var payloadSize := |nal| - 1;
      chunkSize := Min(MaxPayload - 2, payloadSize - offset);
      var isFirstPacket := offset == 0;
      var isLastPacket := offset + chunkSize == payloadSize;
      var fuaPacket := [FuIndicator(nalHeader), FuHeader(nalHeader, isFirstPacket, isLastPacket)]
                       + nal[1 + offset .. 1 + offset + chunkSize];
      FragmentStep(nal, offset, chunkSize, RtpPayload(fuaPacket, isLastPacket), done, all, start, currentTimestamp, ssrc);
      SendRtpPacket(fuaPacket, isLastPacket);
    }
  }
}
