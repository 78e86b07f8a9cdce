/** The upstream half of a relay session: every message read from the realtime AI
    service is decoded as a JSON object, classified by its `type` field, and turned
    into at most one message for the client. Nothing in this half ends the session
    except a failed read. */
module Dispatch {
  import opened Wrappers

  /** A JSON value, as far as the relay looks into it. */
  datatype JsonValue =
    | JString(s: string)
    | JNumber(literal: string)
    | JBool(b: bool)
    | JNull
    | JArray(items: seq<JsonValue>)
    | JObject(members: map<string, JsonValue>)

  /** A message read from the upstream socket, after JSON decoding into a map.
      Decoding fails on text that is not JSON, on JSON that is not an object or
      `null`, and on numbers too large for a float64. The literal `null` decodes
      without an error into a nil map, which reads like an object with no members:
      it is `JsonObject(map[])` here. */
  datatype Inbound = Malformed | JsonObject(fields: map<string, JsonValue>)

  /** The event kinds the relay distinguishes; every other `type` is `Unknown`. */
  datatype Kind =
    | Unparseable
    | ErrorReport(event: map<string, JsonValue>)
    | AudioDelta(delta: string)
    | ResponseDone
    | Unknown(typeName: string)

  /** A message written to the client socket: the text of an upstream error event,
      or decoded PCM audio. */
  datatype ClientMessage = TextMessage(event: map<string, JsonValue>) | BinaryMessage(pcm: seq<bv8>)

  const ErrorType := "error"
  const DeltaType := "response.output_audio.delta"
  const DoneType := "response.done"

  /** The string under `key`; a missing or non-string member reads as the empty string. */
  function StringField(fields: map<string, JsonValue>, key: string): string
  {
    if key in fields && fields[key].JString? then fields[key].s else ""
  }

  /** The `type` discriminant of a decoded message. */
  function TypeOf(m: Inbound): string
  {
    if m.JsonObject? then StringField(m.fields, "type") else ""
  }

  /** Classifies an upstream message by its `type`. */
  function Classify(m: Inbound): (k: Kind)
    ensures k.Unparseable? <==> m.Malformed?
    ensures k.ErrorReport? <==> !m.Malformed? && TypeOf(m) == ErrorType
    ensures k.ErrorReport? ==> m.JsonObject? && k.event == m.fields
    ensures k.AudioDelta? <==> !m.Malformed? && TypeOf(m) == DeltaType
    ensures k.AudioDelta? ==> k.delta == StringField(m.fields, "delta")
    ensures k.ResponseDone? <==> !m.Malformed? && TypeOf(m) == DoneType
    ensures k.Unknown? ==> k.typeName == TypeOf(m) && k.typeName !in {ErrorType, DeltaType, DoneType}
  {
    match m
    case Malformed => Unparseable
    case JsonObject(fields) =>
      var t := StringField(fields, "type");
      if t == ErrorType then ErrorReport(fields)
      else if t == DeltaType then AudioDelta(StringField(fields, "delta"))
      else if t == DoneType then ResponseDone
      else Unknown(t)
  }

  /** What is written to the client for one classified event. `decode` stands for standard
      base64 decoding, which fails on malformed input. */
  function Relay(k: Kind, decode: string -> Option<seq<bv8>>): Option<ClientMessage>
  {
    match k
    case ErrorReport(event) => Some(TextMessage(event))
    case AudioDelta(delta) =>
      (match decode(delta)
       case Some(pcm) => Some(BinaryMessage(pcm))
       case None => None)
    case _ => None
  }

  /** The whole dispatch of one upstream message. */
  function Forward(m: Inbound, decode: string -> Option<seq<bv8>>): (r: Option<ClientMessage>)
    // an error event is forwarded to the client as text, and nothing else is
    ensures (r.Some? && r.value.TextMessage?) <==> m.JsonObject? && TypeOf(m) == ErrorType
    ensures r.Some? && r.value.TextMessage? ==> r.value.event == m.fields
    // an audio delta is forwarded as binary exactly when its payload decodes
    ensures (r.Some? && r.value.BinaryMessage?) <==>
      m.JsonObject? && TypeOf(m) == DeltaType && decode(StringField(m.fields, "delta")).Some?
    ensures r.Some? && r.value.BinaryMessage? ==>
      r.value.pcm == decode(StringField(m.fields, "delta")).value
    // non-JSON input, completion and every other type reach the client as nothing
    ensures m.Malformed? ==> r.None?
    ensures TypeOf(m) !in {ErrorType, DeltaType} ==> r.None?
  {
    Relay(Classify(m), decode)
  }

  /** A delta event without a string `delta` member is decoded from the empty string;
      since base64 decodes that to no bytes, an empty binary message is then written to the client. */
  lemma MissingDeltaSendsEmptyAudio(fields: map<string, JsonValue>, decode: string -> Option<seq<bv8>>)
    requires StringField(fields, "type") == DeltaType
    requires !("delta" in fields && fields["delta"].JString?)
    requires decode("") == Some([])
    ensures Forward(JsonObject(fields), decode) == Some(BinaryMessage([]))
  {
  }
}
