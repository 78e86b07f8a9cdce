/** The events the gateway sends to the realtime AI service. Each one is a JSON
    object whose `type` field names the event; audio travels base64-encoded on
    the wire, but the model carries the raw bytes. */
module Upstream {

  /** Sample rate of the PCM16 audio the client sends and receives. */
  const InputRateHz: nat := 24000
  const OutputRateHz: nat := 24000

  datatype AudioFormat = AudioFormat(mime: string, rateHz: nat)

  /** The `session` object of the `session.update` event sent once per session. */
  datatype SessionConfig = SessionConfig(
    instructions: string,
    inputFormat: AudioFormat,
    serverTurnDetection: bool,
    outputFormat: AudioFormat,
    voice: string,
    speed: int,
    outputModalities: seq<string>)

  const AudioOnly: seq<string> := ["audio"]

  /** The configuration the gateway installs: PCM at 24 kHz both ways, server-side
      turn detection switched off (the gateway decides when a turn ends), audio-only output. */
  const Config: SessionConfig := SessionConfig(
    "You are a helpful assistant that speaks in Traditional Chinese.",
    AudioFormat("audio/pcm", InputRateHz),
    false,
    AudioFormat("audio/pcm", OutputRateHz),
    "alloy",
    1,
    AudioOnly)

  datatype Event =
    | SessionUpdate(config: SessionConfig)
    | Append(audio: seq<bv8>)
    | Commit
    | ResponseCreate(modalities: seq<string>)
    | Clear
    | Cancel
  {
    /** Events after which the upstream input buffer is empty. */
    predicate Resets() {
      Commit? || Clear?
    }
  }

  /** The `response.create` the gateway sends after every commit. */
  const CreateAudio: Event := ResponseCreate(AudioOnly)
}
