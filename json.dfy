/** JSON values as the signaling layer sees them once a text frame has been
    parsed.  The text form (parsing and compact serialisation) is not part
    of this model: an inbound frame is either malformed or a parsed document. */
module Json {

  datatype Json =
    | JNull
    | JBool(b: bool)
    | JNumber(n: int)
    | JString(s: string)
    | JArray(items: seq<Json>)
    | JObject(fields: map<string, Json>)

  /** The outcome of parsing one inbound text frame. */
  datatype Inbound = Malformed | Document(root: Json)

  /** The object view of a document or value: an object's members, and no
      members for anything that is not an object (the way a JSON library's
      "to object" accessor behaves). */
  function AsObject(v: Json): map<string, Json>
  {
    if v.JObject? then v.fields else map[]
  }

  /** The string view of a value: its text when it is a string, and the
      empty string otherwise. */
  function AsString(v: Json): string
  {
    if v.JString? then v.s else ""
  }

  /** The value stored under `key`, reading a missing member as null. */
  function Member(obj: map<string, Json>, key: string): Json
  {
    if key in obj then obj[key] else JNull
  }

  /** True when `key` is present and holds a string. */
  predicate HasString(obj: map<string, Json>, key: string)
  {
    key in obj && obj[key].JString?
  }

  /** A JSON array of strings, in order. */
  function StringArray(ss: seq<string>): (a: Json)
    ensures a.JArray? && |a.items| == |ss|
    ensures forall i :: 0 <= i < |ss| ==> a.items[i] == JString(ss[i])
  {
    JArray(seq(|ss|, i requires 0 <= i < |ss| => JString(ss[i])))
  }
}
