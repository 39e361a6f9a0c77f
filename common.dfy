/** Message types shared by the signaling server and its clients, the
    conversions between a type and its wire name, and the task record that
    carries one inbound frame from a connection to a worker. */
module Common {
  import opened Json

  datatype SignalingType =
    | REGISTER_REQUEST  // client to server
    | OFFER
    | ANSWER
    | ICE
    | REGISTER_SUCCESS  // server to client
    | PEER_JOINED
    | PEER_LEFT
    | ERROR_MESSAGE
    | UNKNOWN

  /** The eight wire names; every other string is unknown. */
  const Names: set<string> := {"REGISTER_REQUEST", "OFFER", "ANSWER", "ICE",
                               "REGISTER_SUCCESS", "PEER_JOINED", "PEER_LEFT", "ERROR_MESSAGE"}

  /** Reads a wire name: each of the eight names gives its own type, and
      any other string, "UNKNOWN" included, gives UNKNOWN. */
  function StringToType(s: string): (t: SignalingType)
    ensures t == UNKNOWN <==> s !in Names
  {
    if s == "REGISTER_REQUEST" then REGISTER_REQUEST
    else if s == "OFFER" then OFFER
    else if s == "ANSWER" then ANSWER
    else if s == "ICE" then ICE
    else if s == "REGISTER_SUCCESS" then REGISTER_SUCCESS
    else if s == "PEER_JOINED" then PEER_JOINED
    else if s == "PEER_LEFT" then PEER_LEFT
    else if s == "ERROR_MESSAGE" then ERROR_MESSAGE
    else UNKNOWN
  }

  /** The wire name of a type; UNKNOWN is written "UNKNOWN", the only name
      outside the eight. */
  function TypeToString(t: SignalingType): (s: string)
    ensures t != UNKNOWN <==> s in Names
    ensures t == UNKNOWN ==> s == "UNKNOWN"
  {
    match t
    case REGISTER_REQUEST => "REGISTER_REQUEST"
    case OFFER => "OFFER"
    case ANSWER => "ANSWER"
    case ICE => "ICE"
    case REGISTER_SUCCESS => "REGISTER_SUCCESS"
    case PEER_JOINED => "PEER_JOINED"
    case PEER_LEFT => "PEER_LEFT"
    case ERROR_MESSAGE => "ERROR_MESSAGE"
    case UNKNOWN => "UNKNOWN"
  }

  /** Reading back the name of a type gives the type. */
  lemma TypeRoundTrip(t: SignalingType)
    ensures StringToType(TypeToString(t)) == t
  {
  }

  /** Any string read as a known type is that type's name. */
  lemma NameRoundTrip(s: string)
    requires StringToType(s) != UNKNOWN
    ensures TypeToString(StringToType(s)) == s
  {
  }

  /** Different types have different names. */
  lemma NamesDistinct(t1: SignalingType, t2: SignalingType)
    requires t1 != t2
    ensures TypeToString(t1) != TypeToString(t2)
  {
    TypeRoundTrip(t1);
    TypeRoundTrip(t2);
  }

  /** One inbound text frame waiting for a worker: the id of the connection
      it arrived on, its parsed content, and the wall-clock time in
      milliseconds when the task was made. */
  datatype SignalingTask = SignalingTask(clientId: string, payload: Inbound, timestamp: int)

  /** The default task a worker declares before it pops one: no client,
      an empty frame (which does not parse), time 0. */
  function EmptyTask(): (t: SignalingTask)
    ensures t.timestamp == 0
  {
    SignalingTask("", Malformed, 0)
  }

  /** A task made from a connection's frame; `now` stands for the clock
      reading taken at that moment. */
  function NewTask(clientId: string, payload: Inbound, now: int): (t: SignalingTask)
    ensures t.clientId == clientId && t.payload == payload && t.timestamp == now
  {
    SignalingTask(clientId, payload, now)
  }
}
