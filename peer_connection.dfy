/** The client-side peer connection manager: its role and identity fields,
    the signaling messages it sends and reacts to, and its own inlined copy of
    the H.264 packetizer that writes onto the video data channel. */
module PeerConnection {
  import opened Rtp
  import opened Json
  import opened Common
  import RtpSender

  /** The video data channel: none, or one that is open or not yet open. */
  datatype Channel = NoChannel | DataChannel(open: bool)

  /** The signaling websocket: none, created and connecting, or open. */
  datatype Socket = NoSocket | Connecting | Open

  /** The label both sides give the video data channel. */
  const VideoLabel: string := "video-stream"

  /** A signaling message as the client writes it. */
  function SignalingMessage(msgType: string, from: string, to: string, data: map<string, Json>): (m: Json)
    ensures m.JObject? && m.fields.Keys == {"type", "from", "to", "data"}
    ensures AsString(Member(m.fields, "type")) == msgType
    ensures AsString(Member(m.fields, "from")) == from
    ensures AsString(Member(m.fields, "to")) == to
    ensures AsObject(Member(m.fields, "data")) == data
  {
    JObject(map["type" := JString(msgType), "from" := JString(from), "to" := JString(to), "data" := JObject(data)])
  }

  class PeerConnectionManager {
    var socket: Socket
    /** A peer connection object exists. */
    var hasConnection: bool
    var channel: Channel
    var myId: string
    var targetPeerId: string
    var isCaller: bool
    var sequenceNumber: uint16
    /** The manager never assigns its timestamp or SSRC: both keep the
        initial value 0 of the stand-alone sender's fields. */
    const currentTimestamp: uint32
    const ssrc: uint32
    /** Every packet written onto the video data channel, in order. */
    var packets: seq<seq<byte>>
    /** Every message written onto the signaling websocket, in order. */
    var signaling: seq<Json>

    predicate Stopped()
      reads this
    {
      channel == NoChannel && !hasConnection && targetPeerId == "" && !isCaller
    }

    constructor ()
      ensures socket == NoSocket && !hasConnection && channel == NoChannel
      ensures myId == "" && targetPeerId == "" && !isCaller
      ensures sequenceNumber == 0 && currentTimestamp == 0 && ssrc == 0
      ensures packets == [] && signaling == []
      ensures Stopped()
    {
      socket := NoSocket;
      hasConnection := false;
      channel := NoChannel;
      myId := "";
      targetPeerId := "";
      isCaller := false;
      sequenceNumber := 0;
      currentTimestamp := 0;
      ssrc := 0;
      packets := [];
      signaling := [];
    }

    /** Calls `targetId`: this side is the caller, makes a fresh peer
        connection and opens the video data channel on it. */
    method Start(targetId: string)
      modifies this`targetPeerId, this`isCaller, this`hasConnection, this`channel
      ensures targetPeerId == targetId && isCaller
      ensures hasConnection && channel == DataChannel(false)
    {
      targetPeerId := targetId;
      isCaller := true;
      hasConnection := true;
      channel := DataChannel(false);
    }

    /** The remote side announced a data channel; only one labelled
        "video-stream" is bound as the video channel. */
    method OnDataChannel(channelLabel: string)
      requires hasConnection
      modifies this`channel
      ensures channelLabel == VideoLabel ==> channel == DataChannel(false)
      ensures channelLabel != VideoLabel ==> channel == old(channel)
    {
      if channelLabel == VideoLabel {
        channel := DataChannel(false);
      }
    }

    /** The bound video channel reports itself open. */
    method OnChannelOpen()
      requires channel.DataChannel?
      modifies this`channel
      ensures channel == DataChannel(true)
    {
      channel := DataChannel(true);
    }

    /** Creates the signaling websocket and starts connecting. */
    method ConnectServer()
      modifies this`socket
      ensures socket == Connecting
    {
      socket := Connecting;
    }

    /** The websocket opened: the client registers with the server. */
    method OnSignalingOpen()
      requires socket != NoSocket
      modifies this`socket, this`signaling
      ensures socket == Open
      ensures signaling == old(signaling) + [SignalingMessage("REGISTER_REQUEST", myId, "Server", map[])]
    {
      socket := Open;
      SendSignalingMessage("REGISTER_REQUEST", "Server", map[]);
    }

    /** Sends `{type, from: myId, to, data}` when the websocket is open, and
        nothing otherwise. */
    method SendSignalingMessage(msgType: string, to: string, data: map<string, Json>)
      modifies this`signaling
      ensures socket == Open ==> signaling == old(signaling) + [SignalingMessage(msgType, myId, to, data)]
      ensures socket != Open ==> signaling == old(signaling)
    {
      if socket == Open {
        signaling := signaling + [SignalingMessage(msgType, myId, to, data)];
      }
    }

    /** The peer connection produced a local description: an offer on the
        caller's side, an answer on the callee's, sent to the target. */
    method OnLocalDescription(isOffer: bool, sdp: string)
      requires hasConnection
      modifies this`signaling
      ensures var name := TypeToString(if isOffer then OFFER else ANSWER);
        socket == Open ==> signaling == old(signaling) + [SignalingMessage(name, myId, targetPeerId, map["sdp" := JString(sdp)])]
      ensures socket != Open ==> signaling == old(signaling)
    {
      var name := TypeToString(if isOffer then OFFER else ANSWER);
      SendSignalingMessage(name, targetPeerId, map["sdp" := JString(sdp)]);
    }

    /** The peer connection gathered a local ICE candidate, sent to the target. */
    method OnLocalCandidate(candidate: string, mid: string)
      requires hasConnection
      modifies this`signaling
      ensures socket == Open ==>
        signaling == old(signaling)
        + [SignalingMessage("ICE", myId, targetPeerId, map["candidate" := JString(candidate), "sdpMid" := JString(mid)])]
      ensures socket != Open ==> signaling == old(signaling)
    {
      SendSignalingMessage(TypeToString(ICE), targetPeerId,
                           map["candidate" := JString(candidate), "sdpMid" := JString(mid)]);
    }

    /** Reacts to one inbound signaling object.  REGISTER_SUCCESS records the
        id the server assigned, PEER_JOINED makes the newcomer the target, an
        OFFER makes its sender the target, this side the callee, and creates
        a peer connection only when there is none.  Everything else only
        reaches the connection library, and changes none of these fields. */
    method HandleSignalingMessage(json: map<string, Json>)
      modifies this`myId, this`targetPeerId, this`isCaller, this`hasConnection
      ensures var msgType := StringToType(AsString(Member(json, "type")));
        var from := AsString(Member(json, "from"));
        var data := AsObject(Member(json, "data"));
        && myId == (if msgType == REGISTER_SUCCESS then AsString(Member(data, "peerId")) else old(myId))
        && targetPeerId == (if msgType == PEER_JOINED then AsString(Member(data, "id"))
                            else if msgType == OFFER then from
                            else old(targetPeerId))
        && isCaller == (if msgType == OFFER then false else old(isCaller))
        && hasConnection == (old(hasConnection) || msgType == OFFER)
    {
      var msgType := StringToType(AsString(Member(json, "type")));
      var from := AsString(Member(json, "from"));
      var data := AsObject(Member(json, "data"));
      if msgType == REGISTER_SUCCESS {
        myId := AsString(Member(data, "peerId"));
      } else if msgType == PEER_JOINED {
        OnJoined(AsString(Member(data, "id")));
      } else if msgType == OFFER {
        targetPeerId := from;
        isCaller := false;
        if !hasConnection {
          hasConnection := true;
        }
      }
    }

    /** A peer joined: it becomes the target. */
    method OnJoined(peerId: string)
      modifies this`targetPeerId
      ensures targetPeerId == peerId
    {
      targetPeerId := peerId;
    }

    /** Packetizes one encoded frame onto the video channel.  The timestamp
        argument is not used: every packet carries `currentTimestamp`.  With
        no open channel, or an empty frame, nothing is sent. */
    method SendEncodedFrame(encodedData: seq<byte>, timestamp: uint32)
      modifies this`sequenceNumber, this`packets
      ensures !(channel.DataChannel? && channel.open) || |encodedData| == 0 ==>
        packets == old(packets) && sequenceNumber == old(sequenceNumber)
      ensures channel.DataChannel? && channel.open && |encodedData| > 0 ==>
        && packets == old(packets) + Frame(Payloads(encodedData), old(sequenceNumber), currentTimestamp, ssrc)
        && sequenceNumber == SequenceAfter(old(sequenceNumber), |Payloads(encodedData)|)
    {
      if !(channel.DataChannel? && channel.open) {
        return;
      }
      var totalSize := |encodedData|;
      if totalSize == 0 {
        return;
      }
      if totalSize <= MaxPayload {
        WritePacket(encodedData, true);
        assert Frame([RtpPayload(encodedData, true)], old(sequenceNumber), currentTimestamp, ssrc)
            == [Packet(Header(true, old(sequenceNumber), currentTimestamp, ssrc), encodedData)];
        return;
      }
      WriteFragments(encodedData);
    }

    /** The fragmenting branch of SendEncodedFrame: FU-A fragments of the
        bytes after the NAL header, numbered on from the current counter. */
    method WriteFragments(encodedData: seq<byte>)
      requires |encodedData| > MaxPayload
      modifies this`sequenceNumber, this`packets
      ensures packets == old(packets) + Frame(Fragments(encodedData, 0), old(sequenceNumber), currentTimestamp, ssrc)
      ensures sequenceNumber == SequenceAfter(old(sequenceNumber), |Fragments(encodedData, 0)|)
    {
      ghost var before := packets;
      ghost var start := sequenceNumber;
      var payloadSize := |encodedData| - 1;
      var offset := 0;
      ghost var done: seq<RtpPayload> := [];
      while offset < payloadSize
        invariant 0 <= offset <= payloadSize
        invariant done + Fragments(encodedData, offset) == Fragments(encodedData, 0)
        invariant packets == before + Frame(done, start, currentTimestamp, ssrc)
        invariant sequenceNumber == SequenceAfter(start, |done|)
        decreases payloadSize - offset
      {
        ghost var next := done + [Fragments(encodedData, offset)[0]];
        var chunkSize := WriteFragment(encodedData, offset, done, Fragments(encodedData, 0), before, start);
        done := next;
        offset := offset + chunkSize;
      }
    }

    /** One pass of the fragmenting loop: the fragment of up to ChunkSize
        bytes from `offset` written as the next packet.  `done`, `all`,
        `before` and `start` are the fragments already written, all of the
        frame's fragments, the packets before the frame and the counter at
        its start. */
    method WriteFragment(encodedData: seq<byte>, offset: nat, ghost done: seq<RtpPayload>, ghost all: seq<RtpPayload>,
                         ghost before: seq<seq<byte>>, ghost start: uint16) returns (chunkSize: nat)
      requires |encodedData| > MaxPayload && offset < |encodedData| - 1
      requires done + Fragments(encodedData, offset) == all
      requires packets == before + Frame(done, start, currentTimestamp, ssrc)
      requires sequenceNumber == SequenceAfter(start, |done|)
      modifies this`sequenceNumber, this`packets
      ensures chunkSize == Min(ChunkSize, |encodedData| - 1 - offset)
      ensures (done + [Fragments(encodedData, offset)[0]]) + Fragments(encodedData, offset + chunkSize) == all
      ensures packets == before + Frame(done + [Fragments(encodedData, offset)[0]], start, currentTimestamp, ssrc)
      ensures sequenceNumber == SequenceAfter(start, |done| + 1)
    {
      var nalHeader := encodedData[0];
      var payloadSize := |encodedData| - 1;
      chunkSize := Min(MaxPayload - 2, payloadSize - offset);
      var isFirst := offset == 0;
      var isLast := offset + chunkSize == payloadSize;
      var payload := [FuIndicator(nalHeader), FuHeader(nalHeader, isFirst, isLast)]
                     + encodedData[1 + offset .. 1 + offset + chunkSize];
      FragmentStep(encodedData, offset, chunkSize, RtpPayload(payload, isLast), done, all, start, currentTimestamp, ssrc);
      WritePacket(payload, isLast);
    }

    /** The header-writing block both branches of SendEncodedFrame repeat:
        the packet carries the current sequence number, which then advances
        by one modulo 2^16. */
    method WritePacket(payload: seq<byte>, marker: bool)
      modifies this`sequenceNumber, this`packets
      ensures packets == old(packets) + [Packet(Header(marker, old(sequenceNumber), currentTimestamp, ssrc), payload)]
      ensures sequenceNumber == SequenceAfter(old(sequenceNumber), 1)
    {
      var packet := RtpSender.BuildPacket(Header(marker, sequenceNumber, currentTimestamp, ssrc), payload);
      sequenceNumber := (sequenceNumber + 1) % 0x1_0000;
      packets := packets + [packet];
    }

    /** Closes and drops the data channel and the peer connection and forgets
        the target and the role; the signaling connection and the id stay.
        Stopping a stopped manager changes nothing. */
    method Stop()
      modifies this`channel, this`hasConnection, this`targetPeerId, this`isCaller
      ensures Stopped()
      ensures old(Stopped()) ==>
        channel == old(channel) && hasConnection == old(hasConnection)
        && targetPeerId == old(targetPeerId) && isCaller == old(isCaller)
    {
      if channel.DataChannel? {
        channel := NoChannel;
      }
      if hasConnection {
        hasConnection := false;
      }
      targetPeerId := "";
      isCaller := false;
    }
  }
}
