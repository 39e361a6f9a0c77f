/** The signaling server's relay rules.  A handler reads one parsed message
    from a client and the roster of registered ids, and yields the events it
    raises, in order: a session to add to the roster, or a message to send
    to one client.  The server object then applies those events to its
    session table, its roster and the messages it delivers. */
module Signaling {
  import opened Json
  import opened Common
  import opened Wrappers

  datatype Event =
    | AddSession(id: string)
    | Respond(target: string, msg: Json)

  /** The sender id of messages the server writes itself. */
  const ServerId: string := "Server"

  /** The character buffer the ANSWER and ICE handlers format their
      "not online" text into, terminating zero included. */
  const ErrorBufferSize: nat := 64

  /** The message types that have a registered handler. */
  const HandlerNames: set<string> := {"REGISTER_REQUEST", "OFFER", "ANSWER", "ICE"}

  /** A message of the given type written by the server to `to`. */
  function ServerMessage(msgType: SignalingType, to: string, data: map<string, Json>): Json
  {
    JObject(map["type" := JString(TypeToString(msgType)), "from" := JString(ServerId),
                "to" := JString(to), "data" := JObject(data)])
  }

  /** The type, sender, recipient and data members of a message. */
  function TypeOf(msg: Json): string { AsString(Member(AsObject(msg), "type")) }
  function FromOf(msg: Json): string { AsString(Member(AsObject(msg), "from")) }
  function ToOf(msg: Json): string { AsString(Member(AsObject(msg), "to")) }
  function DataOf(msg: Json): Json { Member(AsObject(msg), "data") }

  /** An ERROR_MESSAGE carrying `message`, sent back to `clientId`. */
  function HandleError(message: string, clientId: string): (es: seq<Event>)
    ensures |es| == 1 && es[0].Respond? && es[0].target == clientId
    ensures TypeOf(es[0].msg) == "ERROR_MESSAGE" && FromOf(es[0].msg) == ServerId && ToOf(es[0].msg) == clientId
    ensures AsString(Member(AsObject(DataOf(es[0].msg)), "message")) == message
  {
    [Respond(clientId, ServerMessage(ERROR_MESSAGE, clientId, map["message" := JString(message)]))]
  }

  /** True when `clientId` is in the roster. */
  function IsOnline(roster: seq<string>, clientId: string): (b: bool)
    ensures b <==> clientId in roster
  {
    if roster == [] then false
    else roster[0] == clientId || IsOnline(roster[1..], clientId)
  }

  /** The roster entries other than `srcId`, in roster order. */
  function Others(roster: seq<string>, srcId: string): (r: seq<string>)
    ensures forall x :: x in r <==> x in roster && x != srcId
  {
    if roster == [] then []
    else (if roster[0] == srcId then [] else [roster[0]]) + Others(roster[1..], srcId)
  }

  /** The PEER_JOINED notice about `srcId` for `target`. */
  function PeerJoined(srcId: string, target: string): Json
  {
    ServerMessage(PEER_JOINED, target, map["id" := JString(srcId)])
  }

  /** One PEER_JOINED notice per roster entry other than the newcomer. */
  function JoinNotices(roster: seq<string>, srcId: string): seq<Event>
  {
    if roster == [] then []
    else (if roster[0] == srcId then [] else [Respond(roster[0], PeerJoined(srcId, roster[0]))])
         + JoinNotices(roster[1..], srcId)
  }

  /** The REGISTER_SUCCESS reply: the request itself with type, sender,
      recipient and data overwritten. */
  function RegisterReply(roster: seq<string>, root: map<string, Json>, srcId: string): Json
  {
    JObject(root["type" := JString(TypeToString(REGISTER_SUCCESS))]
                ["from" := JString(ServerId)]
                ["to" := JString(srcId)]
                ["data" := JObject(map["peerId" := JString(srcId), "message" := JString("Welcome!"),
                                       "peers" := StringArray(roster)])])
  }

  /** REGISTER_REQUEST: the sender joins the roster, gets the welcome with
      the roster as it was, and everyone else on it hears of the sender. */
  function HandleRegister(roster: seq<string>, root: map<string, Json>, srcId: string): seq<Event>
  {
    [AddSession(srcId), Respond(srcId, RegisterReply(roster, root, srcId))] + JoinNotices(roster, srcId)
  }

  /** The data a forward carries: the request's own, or an empty object. */
  function ForwardData(root: map<string, Json>): Json
  {
    if "data" in root then root["data"] else JObject(map[])
  }

  /** A client-to-client message relayed by the server, sender filled in. */
  function Forward(msgType: SignalingType, srcId: string, target: string, root: map<string, Json>): Json
  {
    JObject(map["type" := JString(TypeToString(msgType)), "from" := JString(srcId),
                "to" := JString(target), "data" := ForwardData(root)])
  }

  function NotOnline(target: string): string
  {
    target + " is not online"
  }

  /** What fits in the formatting buffer: at most ErrorBufferSize - 1
      characters. */
  function Truncated(s: string): (t: string)
    ensures |t| < ErrorBufferSize
    ensures |s| < ErrorBufferSize ==> t == s
    ensures t == s[..|t|]
  {
    if |s| < ErrorBufferSize then s else s[..ErrorBufferSize - 1]
  }

  /** OFFER: forwarded to the target even when it is not online, after an
      error to the sender. */
  function HandleOffer(roster: seq<string>, root: map<string, Json>, srcId: string): seq<Event>
  {
    if !HasString(root, "to") then HandleError("Missing 'to' field in OFFER", srcId)
    else
      var target := root["to"].s;
      (if !IsOnline(roster, target) then HandleError(NotOnline(target), srcId) else [])
        + [Respond(target, Forward(OFFER, srcId, target, root))]
  }

  /** ANSWER: as OFFER, with the error text cut to the buffer. */
  function HandleAnswer(roster: seq<string>, root: map<string, Json>, srcId: string): seq<Event>
  {
    if !HasString(root, "to") then HandleError("Missing 'to' field in ANSWER", srcId)
    else
      var target := root["to"].s;
      (if !IsOnline(roster, target) then HandleError(Truncated(NotOnline(target)), srcId) else [])
        + [Respond(target, Forward(ANSWER, srcId, target, root))]
  }

  /** ICE: an offline target gets nothing; the sender gets the error. */
  function HandleIce(roster: seq<string>, root: map<string, Json>, srcId: string): seq<Event>
  {
    if !HasString(root, "to") then HandleError("Missing 'to' field in ICE", srcId)
    else
      var target := root["to"].s;
      if !IsOnline(roster, target) then HandleError(Truncated(NotOnline(target)), srcId)
      else [Respond(target, Forward(ICE, srcId, target, root))]
  }

  /** The handler table: the events of the handler registered under `name`,
      or None when no handler has that name. */
  function RunHandler(name: string, roster: seq<string>, root: map<string, Json>, srcId: string): (r: Option<seq<Event>>)
    ensures r.Some? <==> name in HandlerNames
  {
    if name == "REGISTER_REQUEST" then Some(HandleRegister(roster, root, srcId))
    else if name == "OFFER" then Some(HandleOffer(roster, root, srcId))
    else if name == "ANSWER" then Some(HandleAnswer(roster, root, srcId))
    else if name == "ICE" then Some(HandleIce(roster, root, srcId))
    else None
  }

  /** One task: a frame that does not parse is an "Invalid JSON" error; a
      missing or non-string type, or one with no handler, is an "Invalid
      type" error; anything else goes to its handler. */
  function Dispatch(roster: seq<string>, task: SignalingTask): seq<Event>
  {
    match task.payload
    case Malformed => HandleError("Invalid JSON", task.clientId)
    case Document(doc) =>
      var root := AsObject(doc);
      if !HasString(root, "type") then HandleError("Invalid type", task.clientId)
      else
        match RunHandler(root["type"].s, roster, root, task.clientId)
        case Some(events) => events
        case None => HandleError("Invalid type", task.clientId)
  }

  // ----- Properties of the relay rules -----

  /** Every join notice goes to another roster entry, one per entry in
      roster order, and announces the newcomer; none goes to the newcomer. */
  lemma {:induction false} JoinNoticesTargets(roster: seq<string>, srcId: string)
    ensures |JoinNotices(roster, srcId)| == |Others(roster, srcId)|
    ensures forall i :: 0 <= i < |JoinNotices(roster, srcId)| ==>
      JoinNotices(roster, srcId)[i] == Respond(Others(roster, srcId)[i], PeerJoined(srcId, Others(roster, srcId)[i]))
  {
    if roster != [] {
      JoinNoticesTargets(roster[1..], srcId);
    }
  }

  /** Registering: the sender is added first, then welcomed with its own id
      and the roster before it. */
  lemma RegisterWelcome(roster: seq<string>, root: map<string, Json>, srcId: string)
    ensures var es := HandleRegister(roster, root, srcId);
      && |es| >= 2 && es[0] == AddSession(srcId)
      && es[1].Respond? && es[1].target == srcId
      && TypeOf(es[1].msg) == "REGISTER_SUCCESS" && FromOf(es[1].msg) == ServerId && ToOf(es[1].msg) == srcId
      && AsObject(DataOf(es[1].msg))
         == map["peerId" := JString(srcId), "message" := JString("Welcome!"), "peers" := StringArray(roster)]
  {
  }

  /** After the welcome, registering yields one PEER_JOINED about the
      sender per other roster entry, and none to the sender itself. */
  lemma RegisterNotices(roster: seq<string>, root: map<string, Json>, srcId: string)
    ensures var es := HandleRegister(roster, root, srcId);
      && |es| == 2 + |Others(roster, srcId)|
      && forall i :: 2 <= i < |es| ==>
           && es[i].Respond? && es[i].target in roster && es[i].target != srcId
           && TypeOf(es[i].msg) == "PEER_JOINED" && ToOf(es[i].msg) == es[i].target
           && AsObject(DataOf(es[i].msg)) == map["id" := JString(srcId)]
  {
    JoinNoticesTargets(roster, srcId);
    var others := Others(roster, srcId);
    var es := HandleRegister(roster, root, srcId);
    forall i | 2 <= i < |es|
      ensures es[i] == Respond(others[i - 2], PeerJoined(srcId, others[i - 2]))
      ensures others[i - 2] in roster && others[i - 2] != srcId
    {
      assert es[i] == JoinNotices(roster, srcId)[i - 2];
      assert others[i - 2] in others;
    }
  }

  /** A frame that does not parse yields exactly one "Invalid JSON" error
      to its sender. */
  lemma MalformedRejected(roster: seq<string>, clientId: string, timestamp: int)
    ensures Dispatch(roster, SignalingTask(clientId, Malformed, timestamp)) == HandleError("Invalid JSON", clientId)
  {
  }

  /** A document whose type is missing, not a string or not one of the four
      handled names yields exactly one "Invalid type" error to its sender. */
  lemma BadTypeRejected(roster: seq<string>, task: SignalingTask)
    requires task.payload.Document?
    requires var root := AsObject(task.payload.root);
      !HasString(root, "type") || root["type"].s !in HandlerNames
    ensures Dispatch(roster, task) == HandleError("Invalid type", task.clientId)
  {
  }

  /** A relayed message's events are routed when any error goes to the
      sender and every other event is the forward of `name`, to the
      recipient, naming the sender as its origin and carrying the request's
      data. */
  predicate Routed(es: seq<Event>, name: string, root: map<string, Json>, srcId: string)
    requires HasString(root, "to")
  {
    forall e :: e in es ==>
      && e.Respond?
      && (TypeOf(e.msg) == "ERROR_MESSAGE" ==> e.target == srcId)
      && (TypeOf(e.msg) != "ERROR_MESSAGE" ==>
            && e.target == root["to"].s && TypeOf(e.msg) == name && FromOf(e.msg) == srcId
            && ToOf(e.msg) == root["to"].s && DataOf(e.msg) == ForwardData(root))
  }

  lemma ForwardRouted(msgType: SignalingType, root: map<string, Json>, srcId: string)
    requires HasString(root, "to") && msgType != ERROR_MESSAGE
    ensures Routed(HandleError(NotOnline(root["to"].s), srcId) + [Respond(root["to"].s, Forward(msgType, srcId, root["to"].s, root))],
                   TypeToString(msgType), root, srcId)
    ensures Routed(HandleError(Truncated(NotOnline(root["to"].s)), srcId) + [Respond(root["to"].s, Forward(msgType, srcId, root["to"].s, root))],
                   TypeToString(msgType), root, srcId)
    ensures Routed(HandleError(Truncated(NotOnline(root["to"].s)), srcId), TypeToString(msgType), root, srcId)
    ensures Routed([Respond(root["to"].s, Forward(msgType, srcId, root["to"].s, root))], TypeToString(msgType), root, srcId)
  {
    assert TypeToString(msgType) != "ERROR_MESSAGE" by { TypeRoundTrip(msgType); }
  }

  /** The events of a relayed type (OFFER, ANSWER or ICE) with a string
      recipient are routed: errors only to the sender, forwards only to the
      recipient. */
  lemma RelayRouting(roster: seq<string>, root: map<string, Json>, srcId: string, name: string)
    requires name in {"OFFER", "ANSWER", "ICE"} && HasString(root, "to")
    ensures RunHandler(name, roster, root, srcId).Some?
    ensures Routed(RunHandler(name, roster, root, srcId).value, name, root, srcId)
  {
    OfflineRecipient(roster, root, srcId);
    if name == "OFFER" {
      ForwardRouted(OFFER, root, srcId);
    } else if name == "ANSWER" {
      ForwardRouted(ANSWER, root, srcId);
    } else {
      ForwardRouted(ICE, root, srcId);
    }
  }

  /** A relayed type without a string recipient yields only the "Missing
      'to'" error, to the sender. */
  lemma MissingRecipient(roster: seq<string>, root: map<string, Json>, srcId: string)
    requires !HasString(root, "to")
    ensures HandleOffer(roster, root, srcId) == HandleError("Missing 'to' field in OFFER", srcId)
    ensures HandleAnswer(roster, root, srcId) == HandleError("Missing 'to' field in ANSWER", srcId)
    ensures HandleIce(roster, root, srcId) == HandleError("Missing 'to' field in ICE", srcId)
  {
  }

  /** An offline recipient: OFFER and ANSWER still forward after the error,
      ICE does not; an online recipient gets the forward and no error is
      raised. */
  lemma OfflineRecipient(roster: seq<string>, root: map<string, Json>, srcId: string)
    requires HasString(root, "to")
    ensures var target := root["to"].s;
      !IsOnline(roster, target) ==>
        && HandleOffer(roster, root, srcId)
           == HandleError(NotOnline(target), srcId) + [Respond(target, Forward(OFFER, srcId, target, root))]
        && HandleAnswer(roster, root, srcId)
           == HandleError(Truncated(NotOnline(target)), srcId) + [Respond(target, Forward(ANSWER, srcId, target, root))]
        && HandleIce(roster, root, srcId) == HandleError(Truncated(NotOnline(target)), srcId)
    ensures var target := root["to"].s;
      IsOnline(roster, target) ==>
        && HandleOffer(roster, root, srcId) == [Respond(target, Forward(OFFER, srcId, target, root))]
        && HandleAnswer(roster, root, srcId) == [Respond(target, Forward(ANSWER, srcId, target, root))]
        && HandleIce(roster, root, srcId) == [Respond(target, Forward(ICE, srcId, target, root))]
  {
  }

  /** The cut "not online" text keeps the id whole when it is at most 49
      characters long, and is a prefix of the full text otherwise. */
  lemma NotOnlineText(target: string)
    ensures |target| <= 49 ==> Truncated(NotOnline(target)) == NotOnline(target)
    ensures |target| > 49 ==> |Truncated(NotOnline(target))| == ErrorBufferSize - 1
    ensures Truncated(NotOnline(target)) == NotOnline(target)[..|Truncated(NotOnline(target))|]
  {
  }

  /** Two clients register in turn: the first is welcomed with an empty
      roster and told of nobody; the second is welcomed with the first in
      its roster, and the first is told the second joined. */
  lemma TwoClients(a: string, b: string, t1: int, t2: int)
    requires a != b
    ensures var reg := Document(JObject(map["type" := JString("REGISTER_REQUEST")]));
      var first := Dispatch([], SignalingTask(a, reg, t1));
      var second := Dispatch([a], SignalingTask(b, reg, t2));
      && |first| == 2 && first[0] == AddSession(a) && first[1].target == a
      && AsObject(DataOf(first[1].msg))["peers"] == JArray([])
      && |second| == 3 && second[0] == AddSession(b) && second[1].target == b
      && AsObject(DataOf(second[1].msg))["peers"] == JArray([JString(a)])
      && second[2] == Respond(a, PeerJoined(b, a))
  {
    var reg := map["type" := JString("REGISTER_REQUEST")];
    RegisterWelcome([], reg, a);
    RegisterWelcome([a], reg, b);
    JoinNoticesTargets([a], b);
    assert Others([a], b) == [a];
    assert StringArray([]).items == [];
    assert StringArray([a]).items == [JString(a)];
  }

  // ----- The server's state -----

  /** One client connection; its id is the random UUID drawn for it. */
  class ClientSession {
    const id: string

    constructor (id: string)
      ensures this.id == id
    {
      this.id := id;
    }
  }

  predicate Distinct(s: seq<string>)
  {
    forall i, j :: 0 <= i < j < |s| ==> s[i] != s[j]
  }

  /** The ids of the AddSession events, in order. */
  function Added(events: seq<Event>): seq<string>
  {
    if events == [] then []
    else
      var last := events[|events| - 1];
      Added(events[..|events| - 1]) + (if last.AddSession? then [last.id] else [])
  }

  /** The messages of the Respond events whose target has a live session,
      in order: the ones that reach a client. */
  function Deliveries(sessions: map<string, ClientSession?>, events: seq<Event>): seq<(string, Json)>
  {
    if events == [] then []
    else
      var last := events[|events| - 1];
      Deliveries(sessions, events[..|events| - 1])
        + (if last.Respond? && last.target in sessions && sessions[last.target] != null
           then [(last.target, last.msg)] else [])
  }

  class SignalingServer {
    /** Open connections by id. */
    var sessions: map<string, ClientSession?>
    /** The registered ids: appended on registration, rebuilt from the
        session table when a session goes. */
    var roster: seq<string>
    /** Every message handed to a client connection, with its recipient. */
    var delivered: seq<(string, Json)>

    constructor ()
      ensures sessions == map[] && roster == [] && delivered == []
    {
      sessions := map[];
      roster := [];
      delivered := [];
    }

    /** A client connected; `clientId` is the UUID drawn for its session. */
    method OnNewConnection(clientId: string) returns (session: ClientSession)
      modifies this`sessions
      ensures fresh(session) && session.id == clientId
      ensures sessions == old(sessions)[clientId := session]
    {
      session := new ClientSession(clientId);
      sessions := sessions[clientId := session];
    }

    method OnAddSession(clientId: string)
      modifies this`roster
      ensures roster == old(roster) + [clientId]
    {
      roster := roster + [clientId];
    }

    /** The ids of the open sessions, each once, in no particular order. */
    method GetPeerList() returns (list: seq<string>)
      ensures Distinct(list) && |list| == |sessions.Keys|
      ensures forall id :: id in list <==> id in sessions
    {
      list := [];
      var remaining := sessions.Keys;
      while remaining != {}
        invariant remaining <= sessions.Keys
        invariant forall id :: id in list <==> id in sessions && id !in remaining
        invariant Distinct(list) && |list| + |remaining| == |sessions.Keys|
        decreases |remaining|
      {
        var id :| id in remaining;
        list := list + [id];
        remaining := remaining - {id};
      }
    }

    /** Drops `clientId`'s session if present and rebuilds the roster from
        the session table, so that it then names exactly the open sessions,
        registered or not.  Removing twice changes nothing more. */
    method OnRemoveSession(clientId: string)
      modifies this`sessions, this`roster
      ensures sessions == old(sessions) - {clientId}
      ensures Distinct(roster) && |roster| == |sessions.Keys|
      ensures forall id :: id in roster <==> id in sessions
    {
      if clientId in sessions {
        sessions := sessions - {clientId};
      }
      roster := GetPeerList();
    }

    /** A connection closed: its session goes, and the roster is rebuilt. */
    method OnDisconnected(clientId: string)
      modifies this`sessions, this`roster
      ensures sessions == old(sessions) - {clientId}
      ensures Distinct(roster) && |roster| == |sessions.Keys|
      ensures forall id :: id in roster <==> id in sessions
    {
      sessions := sessions - {clientId};
      ghost var left := sessions;
      OnRemoveSession(clientId);
      assert left - {clientId} == left;
    }

    /** Hands `message` to the target's connection when it has a live
        session, and drops it otherwise. */
    method OnWorkerResult(targetClient: string, message: Json)
      modifies this`delivered
      ensures targetClient in sessions && sessions[targetClient] != null ==>
        delivered == old(delivered) + [(targetClient, message)]
      ensures !(targetClient in sessions && sessions[targetClient] != null) ==>
        delivered == old(delivered)
    {
      if targetClient !in sessions || sessions[targetClient] == null {
        return;
      }
      delivered := delivered + [(targetClient, message)];
    }

    /** A worker processes one task against the roster as it stands, then
        the events it raised are applied in order. */
    method Process(task: SignalingTask)
      modifies this`roster, this`delivered
      ensures roster == old(roster) + Added(Dispatch(old(roster), task))
      ensures delivered == old(delivered) + Deliveries(sessions, Dispatch(old(roster), task))
    {
      ApplyEvents(Dispatch(roster, task));
    }

    /** Applies events in order: ids join the roster, and messages reach
        the clients that still have a session. */
    method ApplyEvents(events: seq<Event>)
      modifies this`roster, this`delivered
      ensures roster == old(roster) + Added(events)
      ensures delivered == old(delivered) + Deliveries(sessions, events)
    {
      var i := 0;
      while i < |events|
        invariant 0 <= i <= |events|
        invariant roster == old(roster) + Added(events[..i])
        invariant delivered == old(delivered) + Deliveries(sessions, events[..i])
        decreases |events| - i
      {
        assert events[..i + 1][..i] == events[..i];
        match events[i] {
          case AddSession(id) => OnAddSession(id);
          case Respond(target, msg) => OnWorkerResult(target, msg);
        }
        i := i + 1;
      }
      assert events[..|events|] == events;
    }
  }
}
