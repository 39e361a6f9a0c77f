# BytesScreenShare core in Dafny

BytesScreenShare streams a screen between two peers. An encoder cuts H.264
output into NAL units and a packetizer wraps them in RTP packets sent over a
WebRTC data channel. A Qt signaling server lets the peers find each other
and exchange offers, answers and ICE candidates. This project models the
sequential logic of that pipeline and proves what it does:

- `rtp.dfy` (module `Rtp`): the RTP fixed header of section 5.1 of RFC 3550
  and its big-endian fields; the single NAL unit packet and the FU-A
  fragments of sections 5.6 and 5.8 of RFC 6184, given as specification
  functions. It includes a reference receiver (header decoder, fragment
  reassembly) used to state round trips.
- `rtp_sender.dfy` (module `RtpSender`): the stand-alone sender
  `RtcRtpSender`. It is a class with the sequence counter, timestamp and
  SSRC as fields. The packet buffer is filled byte by byte in an array, and
  the fragmenting loop is proved to emit exactly the specified frame.
- `peer_connection.dfy` (module `PeerConnection`): `PeerConnectionManager`,
  with its role and identity fields and the signaling messages it sends and
  reacts to. It also holds its inlined copy of the packetizer, which ignores
  its timestamp argument.
- `annexb.dfy` (module `AnnexB`): the Annex B start-code splitter inside
  `VideoEncoder::encode` and its 90 kHz timestamp.
- `json.dfy`, `common.dfy` (modules `Json`, `Common`): JSON values as a
  datatype, the message types and their wire names, and the task record.
- `signaling_server.dfy` (module `Signaling`): the relay rules as functions
  from the roster, a sender id and a parsed message to a list of events.
  The server's session table, roster and deliveries form a class that
  applies those events.
- `wrappers.dfy` (module `Wrappers`): the optional value shared by the
  decoders and the handler table.
- `blocking_queue.dfy`, `worker.dfy` (modules `Queue`, `Workers`): the task
  queue and the worker pool as a sequential state machine.

The inlined packetizer in `PeerConnectionManager` uses `m_sequenceNumber`,
`m_ssrc`, `currentTimestamp_`, `payloadType_` and `MAX_RTP_PAYLOAD_SIZE`.
Their declarations are not part of this model. They take the initial values
of the stand-alone sender (network/RtcRtpSender.h:44-49): counter 0, SSRC 0,
timestamp 0, payload type 96 and limit 1100. Nothing in the manager assigns
the timestamp or the SSRC, so every packet it sends carries timestamp 0 and
SSRC 0.

The relay follows the code where it is permissive. OFFER and ANSWER to a
target that is not in the roster still forward the message after the
"not online" error to the sender; only ICE returns early
(signaling-server/src/SignalingServer.cpp:161-174, 185-205, 216-222).
The roster is rebuilt from the session table whenever a session goes, so it
then lists every open connection, registered or not.

## Model

| member | source | states |
|---|---|---|
| Common.StringToType | signaling-server/src/Common.hpp:69-79 | the result is UNKNOWN exactly when the string is not one of the eight wire names |
| Common.TypeToString | signaling-server/src/Common.hpp:86-98 | the name is one of the eight wire names exactly when the type is not UNKNOWN, and UNKNOWN is written "UNKNOWN" |
| Common.TypeRoundTrip | signaling-server/src/Common.hpp:69-98 | reading back the name of any type gives that type |
| Common.NameRoundTrip | signaling-server/src/Common.hpp:69-98 | a string read as a known type is that type's name |
| Common.NamesDistinct | signaling-server/src/Common.hpp:86-98 | different types have different names |
| Common.EmptyTask | signaling-server/src/Common.hpp:31 | the default task has timestamp 0 |
| Common.NewTask | signaling-server/src/Common.hpp:38-40 | a new task keeps the client id and payload and takes the clock reading as its timestamp |
| Rtp.BigEndian16RoundTrip | network/RtcRtpSender.cpp:181-182 | reading the two big-endian bytes of a 16-bit value gives the value back |
| Rtp.ReadBigEndian16RoundTrip | network/RtcRtpSender.cpp:181-182 | any two bytes are the big-endian encoding of the value read from them |
| Rtp.BigEndian32RoundTrip | network/RtcRtpSender.cpp:186-189 | reading the four big-endian bytes of a 32-bit value gives the value back |
| Rtp.ReadBigEndian32RoundTrip | network/RtcRtpSender.cpp:186-189 | any four bytes are the big-endian encoding of the value read from them |
| Rtp.BigEndian32Bytes | network/RtcRtpSender.cpp:186-189 | the big-endian bytes are the shift-and-mask bytes the sender writes |
| Rtp.EncodeHeader | network/RtcRtpSender.cpp:172-195 | the fixed header is 12 bytes long |
| Rtp.HeaderRoundTrip | network/RtcRtpSender.cpp:172-195 | decoding an encoded header recovers marker, sequence number, timestamp and SSRC |
| Rtp.DecodedHeaderRoundTrip | network/RtcRtpSender.cpp:172-195 | any 12 bytes that decode re-encode to themselves |
| Rtp.EncodeHeaderBytes | network/RtcRtpSender.cpp:175-195 | byte 0 is 0x80, byte 1 is the marker bit over 96, then sequence number, timestamp and SSRC most significant byte first |
| Rtp.PacketRoundTrip | network/RtcRtpSender.cpp:169-198 | a packet is 12 + payload bytes and parses back into its header and payload |
| Rtp.FuBytes | network/RtcRtpSender.cpp:144-153 | the FU indicator has type 28 and the NAL header's F and NRI bits; the FU header has the NAL type, S exactly on first, E exactly on last, reserved bit 0; F, NRI and type together give back the NAL header |
| Rtp.FragmentCount | network/RtcRtpSender.cpp:129-163 | a NAL unit of n bytes yields the ceiling of (n - 1) / 1098 fragments |
| Rtp.FragmentFields | network/RtcRtpSender.cpp:129-163 | every fragment but the last carries 1098 NAL bytes, each starts with the FU indicator and FU header, S only on the first, E and the marker only on the last |
| Rtp.FragmentsReassemble | network/RtcRtpSender.cpp:125-163 | stripping the 2-byte FU prefix and concatenating the fragments gives back bytes 1 to n - 1 of the unit |
| Rtp.PayloadsContract | network/RtcRtpSender.cpp:115-163 | a unit of at most 1100 bytes is one payload with the marker set; a longer unit is two or more fragments with the layout above that reassemble to the unit's body |
| Rtp.DepacketizeRoundTrip | network/RtcRtpSender.cpp:110-163 | a receiver rebuilding the NAL header from the first fragment recovers the unit from its payloads |
| Rtp.FramePacket | network/RtcRtpSender.cpp:166-198 | packet i of a frame parses into payload i, its marker, sequence number start + i mod 2^16, the frame's timestamp and SSRC |
| Rtp.FramesChain | network/RtcRtpSender.cpp:181-183 | two frames sent back to back number their packets consecutively modulo 2^16 |
| Rtp.ModAdd | network/RtcRtpSender.cpp:183 | incrementing a wrapped 16-bit counter k times equals adding k and wrapping once |
| Rtp.FragmentsUnfold | network/RtcRtpSender.cpp:131-156 | the fragments from an offset are the one built there followed by the fragments after it |
| Rtp.FrameAppend | network/RtcRtpSender.cpp:160-183 | one more payload adds one packet numbered after the ones before it |
| Rtp.FragmentStep | network/RtcRtpSender.cpp:129-163 | one pass of the fragmenting loop emits the next specified fragment and keeps the loop's invariant |
| RtpSender.BuildPacket | network/RtcRtpSender.cpp:169-198 | the buffer filled byte by byte is exactly the header followed by the payload |
| RtpSender.WriteHeader | network/RtcRtpSender.cpp:172-195 | the twelve header writes produce the encoded fixed header |
| RtpSender.RtcRtpSender.constructor | network/RtcRtpSender.cpp:6-12 | a new sender has counter 0, timestamp 0, the drawn SSRC and no open channel |
| RtpSender.RtcRtpSender.OnDataChannelOpen | network/RtcRtpSender.cpp:78-81 | the channel is open |
| RtpSender.RtcRtpSender.OnDataChannelClosed | network/RtcRtpSender.cpp:83 | the channel is closed |
| RtpSender.RtcRtpSender.SendRtpPacket | network/RtcRtpSender.cpp:166-209 | one packet with the current counter, timestamp and SSRC is sent; the counter then advances by 1 modulo 2^16 |
| RtpSender.RtcRtpSender.SendH264 | network/RtcRtpSender.cpp:102-164 | with no open channel or an empty unit nothing is sent and no field changes; otherwise the timestamp is taken, the packets sent are the frame of the unit's payloads and the counter advances by their number |
| RtpSender.RtcRtpSender.SendFragments | network/RtcRtpSender.cpp:124-163 | the fragmenting loop sends exactly the frame of the unit's FU-A fragments |
| RtpSender.RtcRtpSender.SendFragment | network/RtcRtpSender.cpp:131-162 | one loop pass sends the next specified fragment as the next packet |
| PeerConnection.SignalingMessage | src/rtc/PeerConnectionManager.cpp:171-175 | the message has exactly the keys type, from, to and data, holding the given values |
| PeerConnection.PeerConnectionManager.constructor | src/rtc/PeerConnectionManager.cpp:7-13 | a new manager has no socket, connection or channel, empty ids, is not the caller, and is stopped |
| PeerConnection.PeerConnectionManager.Start | src/rtc/PeerConnectionManager.cpp:18-25 | the target is set, this side is the caller, and a connection with an unopened video channel exists |
| PeerConnection.PeerConnectionManager.OnDataChannel | src/rtc/PeerConnectionManager.cpp:64-69 | only a channel labelled video-stream is bound |
| PeerConnection.PeerConnectionManager.OnChannelOpen | src/rtc/PeerConnectionManager.cpp:91-98 | the bound channel is open |
| PeerConnection.PeerConnectionManager.ConnectServer | src/rtc/PeerConnectionManager.cpp:181-186 | a websocket exists and is connecting |
| PeerConnection.PeerConnectionManager.OnSignalingOpen | src/rtc/PeerConnectionManager.cpp:188-193 | the socket is open and a REGISTER_REQUEST to Server with empty data is sent |
| PeerConnection.PeerConnectionManager.SendSignalingMessage | src/rtc/PeerConnectionManager.cpp:168-179 | on an open socket exactly {type, from: own id, to, data} is sent; otherwise nothing |
| PeerConnection.PeerConnectionManager.OnLocalDescription | src/rtc/PeerConnectionManager.cpp:55-61 | an OFFER or ANSWER carrying the SDP goes to the target |
| PeerConnection.PeerConnectionManager.OnLocalCandidate | src/rtc/PeerConnectionManager.cpp:47-52 | an ICE message carrying candidate and mid goes to the target |
| PeerConnection.PeerConnectionManager.HandleSignalingMessage | src/rtc/PeerConnectionManager.cpp:124-166 | REGISTER_SUCCESS sets the own id, PEER_JOINED sets the target, OFFER sets the target to its sender, makes this side the callee and creates a connection only if none exists; nothing else changes these fields |
| PeerConnection.PeerConnectionManager.OnJoined | src/rtc/PeerConnectionManager.cpp:239-242 | the joined peer becomes the target |
| PeerConnection.PeerConnectionManager.SendEncodedFrame | src/rtc/PeerConnectionManager.cpp:264-392 | with no open channel or empty input nothing is sent; otherwise the frame of the unit's payloads is sent with the never-assigned timestamp, whatever the argument, and the counter advances by its length |
| PeerConnection.PeerConnectionManager.WriteFragments | src/rtc/PeerConnectionManager.cpp:326-386 | the fragmenting loop sends exactly the frame of the FU-A fragments |
| PeerConnection.PeerConnectionManager.WriteFragment | src/rtc/PeerConnectionManager.cpp:332-385 | one loop pass sends the next specified fragment as the next packet |
| PeerConnection.PeerConnectionManager.WritePacket | src/rtc/PeerConnectionManager.cpp:337-357 | one packet with the current counter is sent; the counter advances by 1 modulo 2^16 |
| PeerConnection.PeerConnectionManager.Stop | src/rtc/PeerConnectionManager.cpp:394-447 | channel and connection are gone, the target is empty, this side is not the caller; a stopped manager is left unchanged |
| AnnexB.PrefixLength | src/encoder/VideoEncoder.cpp:134-141 | 4 exactly when a 4-byte start code is there, 0 exactly when no start code is, and a nonzero length always ends in 00 00 01 |
| AnnexB.UnitEnd | src/encoder/VideoEncoder.cpp:149-157 | the end lies in the buffer, at or after the scan start unless it steps back over a zero; an end inside the buffer sits at a `00 00 01` or at the zero before one; the buffer end means the scanned range holds no start code |
| AnnexB.Spans | src/encoder/VideoEncoder.cpp:123-181 | every unit lies after the scan position, is non-empty and inside the buffer |
| AnnexB.RtpTimestamp | src/encoder/VideoEncoder.cpp:167-174 | 0 without a presentation time, otherwise congruent to pts times 3000 modulo 2^32 |
| AnnexB.TimestampStep | src/encoder/VideoEncoder.cpp:173 | consecutive frames are 3000 ticks apart on the 32-bit clock |
| AnnexB.SplitNalUnits | src/encoder/VideoEncoder.cpp:121-181 | the loop emits exactly the specified units in order, and the timestamp of the packet |
| AnnexB.FindNalStart | src/encoder/VideoEncoder.cpp:126-146 | the unit begins right after the start code at the position, the 4-byte form preferred; -1 when there is none |
| AnnexB.FindUnitEnd | src/encoder/VideoEncoder.cpp:149-157 | the inner scan finds the specified unit end |
| AnnexB.NextUnit | src/encoder/VideoEncoder.cpp:126-180 | one outer pass: it stops exactly when no start code is at the position, and then nothing more is split; otherwise the scan resumes strictly later, and the unit found, if non-empty, followed by the units from there is everything split from the position |
| AnnexB.UnitsStep | src/encoder/VideoEncoder.cpp:159-180 | one outer pass emits the unit when non-empty and resumes at its end |
| AnnexB.SpansUnfold | src/encoder/VideoEncoder.cpp:143-180 | the spans from a start code are the unit after it, if non-empty, then the spans from its end |
| AnnexB.SpansOrdered | src/encoder/VideoEncoder.cpp:124-180 | units come in buffer order and never overlap |
| AnnexB.SpansAfterStartCode | src/encoder/VideoEncoder.cpp:134-161 | every unit begins right after a 00 00 01 |
| AnnexB.UnitEndFirst | src/encoder/VideoEncoder.cpp:150-157 | no start code lies before the unit end within the scanned range |
| AnnexB.UnitEndAtStartCode | src/encoder/VideoEncoder.cpp:143-157 | a unit that follows a start code never ends before it begins, and ends at the next start code or at the buffer end |
| AnnexB.SpansTile | src/encoder/VideoEncoder.cpp:123-181 | from a start code, the units and the start codes between them account for every remaining byte of the buffer, at either scan margin |
| AnnexB.TilesStep | src/encoder/VideoEncoder.cpp:159-180 | emitting a unit, or skipping an empty one, after a start code extends a tiling of the rest of the buffer |
| AnnexB.SplitLossless | src/encoder/VideoEncoder.cpp:121-181 | a packet that does not begin with a start code yields no unit; one that does loses nothing but start codes |
| AnnexB.CorrectedSpansClean | src/encoder/VideoEncoder.cpp:150 | with the scan bound corrected, no unit contains 00 00 01 |
| AnnexB.CorrectedUnits | src/encoder/VideoEncoder.cpp:150 | the corrected split gives non-empty, ordered, non-overlapping units, each after a start code and none containing one; AnnexB.SplitLossless adds that no byte but start codes is lost |
| AnnexB.AsWrittenUnits | src/encoder/VideoEncoder.cpp:123-181 | the split as written gives non-empty, ordered, non-overlapping units, each after a start code |
| AnnexB.TrailingStartCodeKept | src/encoder/VideoEncoder.cpp:150 | as written, a start code ending on the buffer's last byte stays inside the unit before it |
| Queue.BlockingQueue.constructor | signaling-server/src/BlockingQueue.hpp:29 | a new queue is empty |
| Queue.BlockingQueue.Push | signaling-server/src/BlockingQueue.hpp:41-48 | always true; the element is appended at the back |
| Queue.BlockingQueue.Pop | signaling-server/src/BlockingQueue.hpp:56-67 | true exactly when the queue was not empty; then the front is returned and removed, otherwise value and queue are unchanged |
| Queue.BlockingQueue.TryPop | signaling-server/src/BlockingQueue.hpp:74-79 | true exactly when the queue was not empty; then the front is returned and removed, otherwise value and queue are unchanged |
| Queue.BlockingQueue.Size | signaling-server/src/BlockingQueue.hpp:85-88 | the number of queued elements |
| Queue.BlockingQueue.Empty | signaling-server/src/BlockingQueue.hpp:94-97 | true exactly when the size is 0 |
| Workers.Processor.Process | signaling-server/src/Worker.cpp:47-50 | the task is recorded once, with the worker's id |
| Workers.HandledBy | signaling-server/src/Worker.cpp:22-37 | the log of one worker running through a list of tasks: those tasks in order, each tagged with that worker's id |
| Workers.Worker.constructor | signaling-server/src/Worker.cpp:3-5 | the worker has its id, queue and processor and is not running |
| Workers.Worker.Stop | signaling-server/src/Worker.cpp:10-16 | the worker is not running |
| Workers.Worker.StartLoop | signaling-server/src/Worker.cpp:18-21 | the worker is running |
| Workers.Worker.ProcessMessage | signaling-server/src/Worker.cpp:47-50 | the task goes to the processor once, with this worker |
| Workers.Worker.LoopIteration | signaling-server/src/Worker.cpp:22-37 | the loop exits exactly when stopped and the queue is empty; otherwise the front task, if any, is processed and removed |
| Workers.Worker.FinishLoop | signaling-server/src/Worker.cpp:18-40 | once stopped, the worker processes every queued task once, front first, and ends with the queue empty |
| Workers.WorkerPool.constructor | signaling-server/src/Worker.cpp:52-54 | a new pool is stopped, with no workers and an empty queue |
| Workers.WorkerPool.Start | signaling-server/src/Worker.cpp:63-91 | false on a running pool, which is unchanged; otherwise threadCount fresh running workers with ids 1 to threadCount on the shared queue |
| Workers.WorkerPool.Stop | signaling-server/src/Worker.cpp:93-115 | false on a stopped pool, whose queue and processor log are unchanged; otherwise every queued task is processed once in order, the queue is empty and no workers remain; either way the pool ends stopped with no workers |
| Workers.WorkerPool.SubmitTask | signaling-server/src/Worker.cpp:117-125 | true exactly when running; then the task is appended, otherwise the queue is unchanged |
| Workers.WorkerPool.GetQueueSize | signaling-server/src/Worker.cpp:127 | the shared queue's size |
| Signaling.HandleError | signaling-server/src/SignalingServer.cpp:240-254 | one ERROR_MESSAGE from Server to the client, carrying the message |
| Signaling.IsOnline | signaling-server/src/SignalingServer.cpp:265-271 | true exactly when the id is in the roster |
| Signaling.Others | signaling-server/src/SignalingServer.cpp:131-140 | exactly the roster entries other than the sender |
| Signaling.Truncated | signaling-server/src/SignalingServer.cpp:186-189 | a prefix of the text of at most 63 characters, the whole text when it fits |
| Signaling.RunHandler | signaling-server/src/SignalingServer.cpp:61-78 | a handler exists exactly for REGISTER_REQUEST, OFFER, ANSWER and ICE |
| Signaling.JoinNoticesTargets | signaling-server/src/SignalingServer.cpp:126-144 | one PEER_JOINED about the sender per other roster entry, in roster order |
| Signaling.RegisterWelcome | signaling-server/src/SignalingServer.cpp:109-124 | the sender is added to the roster, then gets REGISTER_SUCCESS from Server with its id, "Welcome!" and the roster before it |
| Signaling.RegisterNotices | signaling-server/src/SignalingServer.cpp:126-145 | every later event is a PEER_JOINED with the sender's id to a roster entry other than the sender |
| Signaling.MalformedRejected | signaling-server/src/SignalingServer.cpp:85-88 | a frame that does not parse yields exactly one "Invalid JSON" error to its sender |
| Signaling.BadTypeRejected | signaling-server/src/SignalingServer.cpp:93-105 | a missing, non-string or unhandled type yields exactly one "Invalid type" error to the sender |
| Signaling.ForwardRouted | signaling-server/src/SignalingServer.cpp:157-174 | the error and forward events of a relayed type are routed |
| Signaling.RelayRouting | signaling-server/src/SignalingServer.cpp:148-238 | errors go only to the sender; the forward goes only to the target, from the sender, with the request's data or an empty object |
| Signaling.MissingRecipient | signaling-server/src/SignalingServer.cpp:151-154 | without a string "to", only the "Missing 'to' field in TYPE" error goes to the sender |
| Signaling.OfflineRecipient | signaling-server/src/SignalingServer.cpp:161-222 | offline target: OFFER and ANSWER forward after the error, ICE does not; online target: only the forward |
| Signaling.NotOnlineText | signaling-server/src/SignalingServer.cpp:186-189 | the cut error keeps ids up to 49 characters whole and is 63 characters long otherwise |
| Signaling.TwoClients | signaling-server/src/SignalingServer.cpp:109-146 | the first client is welcomed with an empty roster; the second sees the first, which is told of the second |
| Signaling.ClientSession.constructor | signaling-server/src/SignalingServer.cpp:276-277 | the session keeps the id drawn for it |
| Signaling.SignalingServer.constructor | signaling-server/src/SignalingServer.h:201-204 | no sessions, an empty roster, nothing delivered |
| Signaling.SignalingServer.OnNewConnection | signaling-server/src/SignalingServer.cpp:273-284 | the new session is stored under its id |
| Signaling.SignalingServer.OnAddSession | signaling-server/src/SignalingServer.cpp:309-312 | the id is appended to the roster without deduplication |
| Signaling.SignalingServer.GetPeerList | signaling-server/src/SignalingServer.cpp:256-263 | each open session's id exactly once |
| Signaling.SignalingServer.OnRemoveSession | signaling-server/src/SignalingServer.cpp:314-320 | the id's session is gone, and the roster is exactly the remaining sessions' ids, registered or not; removing again changes no session |
| Signaling.SignalingServer.OnDisconnected | signaling-server/src/SignalingServer.cpp:286-291 | the session is gone and the roster is rebuilt from the remaining sessions |
| Signaling.SignalingServer.OnWorkerResult | signaling-server/src/SignalingServer.cpp:299-307 | delivered only to a target with a live session, dropped otherwise |
| Signaling.SignalingServer.Process | signaling-server/src/SignalingServer.cpp:80-107 | the roster grows by the ids the task's handler adds, and exactly the messages to live sessions are delivered, in order |
| Signaling.SignalingServer.ApplyEvents | signaling-server/src/SignalingServer.cpp:299-312 | events are applied in order: ids join the roster, messages reach live sessions |

## Left out

- Threads, mutexes, wait conditions, atomics and Qt's queued signals are modelled sequentially. A pop on an empty queue times out, since nothing can fill it meanwhile. `notifyOne`/`notifyAll` have no effect in this model.
- Workers.WorkerPool.Stop: the model stops the workers and then runs each one's loop to its end in turn, as joining its thread waits for it. Which worker takes which task is not modelled. The race in which a worker's loop sets its flag after the pool has already stopped it is out of scope.
- Signaling.SignalingServer.Process: a handler reads the roster while the main thread may change it. The model gives the handler a snapshot, and the events it raises are applied after it returns, in order.
- JSON text is neither parsed nor serialised. An inbound frame is either malformed or a parsed JSON value, and outbound messages are JSON values. A non-object document reads as an empty object, as `QJsonDocument::object` does.
- Signaling.Truncated: the source cuts the UTF-8 encoding to 63 bytes; the model cuts the id's characters. The two agree for ASCII ids, such as the UUIDs the server draws.
- Session UUIDs, the random SSRC and the task's clock reading are parameters.
- `onClientDataReady` builds a task and submits it to the pool. It is covered by Common.NewTask and Workers.WorkerPool.SubmitTask and has no member of its own.
- libdatachannel: peer connection and data channel creation, remote descriptions and candidates, send, close and the exceptions swallowed around them. A send appends to a log field. A closed channel is a state flag.
- PeerConnection.PeerConnectionManager.HandleSignalingMessage: on ANSWER and ICE the source dereferences the peer connection without checking that it exists. The model leaves those messages to the connection library and changes no field for them.
- PeerConnection.PeerConnectionManager.OnChannelOpen: the caller's `sendtest` greeting and the UI signals are not modelled.
- `onSignalingMessage` (src/rtc/PeerConnectionManager.cpp:215-237) only calls the connection library. The commented-out packetizer copy in the same file is dead code.
- RtpSender.RtcRtpSender.SendRtpPacket: the source writes the packet whenever a channel object exists, even one that is not open. Its only caller has already checked that the channel is open.
- The FFmpeg calls around the splitter (`init`, colour conversion, the codec calls) are not part of this model. The splitter takes the packet bytes and its pts.
- AnnexB.RtpTimestamp: the product pts × 3000 may overflow int64 in the source. The model multiplies exactly. Both reduce to the same value modulo 2^32 for every pts whose product fits, and the frame rate stays fixed at 30 as in the source.
- Workers.WorkerPool.Start requires a positive thread count on a stopped pool, because the source treats a count of 0 as a fatal assertion (signaling-server/src/Worker.cpp:69-71).
- Logging, hex dumps, UI windows, screen capture, the demo clients and the server's socket listening are not modelled.

## Findings

| source | as written | input that shows it | evidently intended | confidence | as-written member | corrected member |
|---|---|---|---|---|---|---|
| src/encoder/VideoEncoder.cpp:150 | the scan for the next start code runs while `i < size - 3`, so a `00 00 01` whose last byte is the packet's last byte is never seen | the packet `00 00 00 01 65 00 00 01` yields the unit `65 00 00 01` | the scan runs while `i < size - 2`, so every 3-byte start code is found and the packet yields the unit `65` | medium, not executed | AnnexB.TrailingStartCodeKept | AnnexB.CorrectedUnits |
