/**
  What a stream comes to, as a function of the events its reader has yet to hand over, a finite
  list and then the end: what becomes of every packet, in a transcript, and which transcripts give
  chunks. Codecs are deterministic machines.
 */
module PacketDecoding {
  import opened Common

  datatype IoKind = UnexpectedEof | OtherIo

  datatype Error = IoError(kind: IoKind) | DecodeError(message: string) | Unsupported(message: string)

  datatype AudioSpec = AudioSpec(rate: nat, layout: nat, channelCount: nat)

  /** A packet, with the frames the container says to drop from its two ends. */
  datatype Packet = Packet(trackId: nat, data: seq<u8>, trimStart: nat, trimEnd: nat)

  /** A track, its codec if it is an audio track that names one, and the header the codec reads. */
  datatype Track = Track(id: nat, codec: Option<nat>, extraData: Option<seq<u8>>)

  /** What the reader hands over; a reset comes with the tracks it opens. */
  datatype Event = PacketRead(packet: Packet) | ResetRequired(tracks: seq<Track>) | StreamEnd | ReadError(error: Error)

  /** A reader with nothing but packets to hand over. */
  function Reads(packets: seq<Packet>): (events: seq<Event>)
    ensures |events| == |packets|
  {
    seq(|packets|, i requires 0 <= i < |packets| => PacketRead(packets[i]))
  }

  datatype AudioBuffer = AudioBuffer(spec: AudioSpec, interleaved: seq<real>)

  datatype Decoding<+D> = Decoding(next: D, result: Result<AudioBuffer, Error>)

  /** Which codecs there are decoders for, what those do, and how a sum of their samples is rounded. */
  datatype Registry<!D(!new)> = Registry(
    supports: nat -> bool,
    make: Track -> Result<D, Error>,
    decode: (D, Packet) -> Decoding<D>,
    rounded: real -> real
  ) {

    /** A decoder yields whole frames of at least one channel. */
    ghost predicate Lawful() {
      forall d, p | decode(d, p).result.Success? :: WholeFrames(decode(d, p).result.value)
    }
  }

  predicate WholeFrames(buffer: AudioBuffer) {
    buffer.spec.channelCount > 0 && |buffer.interleaved| % buffer.spec.channelCount == 0
  }

  datatype TrackDecoder<+D> = TrackDecoder(trackId: nat, decoder: D)

  const NO_TRACK := Unsupported("the stream carries no track with a codec this build can decode")
  const NO_AUDIO := DecodeError("the stream carries no decodable audio")
  const FORMAT_CHANGES := Unsupported("the stream changes format part-way through")

  // ---------------------------------------------------------------------------------------
  // Track selection and mix-down
  // ---------------------------------------------------------------------------------------

  predicate Decodable<D(!new)>(registry: Registry<D>, track: Track) {
    track.codec.Some? && registry.supports(track.codec.value)
  }

  function FirstDecodable<D(!new)>(registry: Registry<D>, tracks: seq<Track>): (found: Option<Track>)
    ensures match found
            case None => forall track | track in tracks :: !Decodable(registry, track)
            case Some(track) =>
              exists i | 0 <= i < |tracks| ::
                && tracks[i] == track && Decodable(registry, track)
                && forall k | 0 <= k < i :: !Decodable(registry, tracks[k])
  {
    if tracks == [] then None
    else if Decodable(registry, tracks[0]) then Some(tracks[0])
    else
      var found := FirstDecodable(registry, tracks[1..]);
      assert forall i | 0 <= i < |tracks[1..]| :: tracks[1..][i] == tracks[i + 1];
      found
  }

  function DecoderFor<D(!new)>(registry: Registry<D>, tracks: seq<Track>): Result<TrackDecoder<D>, Error> {
    match FirstDecodable(registry, tracks)
    case None => Failure(NO_TRACK)
    case Some(track) =>
      match registry.make(track)
      case Failure(error) => Failure(error)
      case Success(decoder) => Success(TrackDecoder(track.id, decoder))
  }

  /** A sample's share in the average of so many channels. */
  function Share(rounded: real -> real, sample: real, channels: nat): real
    requires channels > 0
  {
    rounded(sample / channels as real)
  }

  /** The sum of a frame's first so many channels, each divided by the channel count as it is added. */
  function FrameSum(rounded: real -> real, interleaved: seq<real>, channels: nat, start: nat, count: nat): real
    requires channels > 0 && start + count <= |interleaved|
  {
    if count == 0 then 0.0
    else
      var share := Share(rounded, interleaved[start + count - 1], channels);
      rounded(FrameSum(rounded, interleaved, channels, start, count - 1) + share)
  }

  lemma FrameFits(frames: nat, channels: nat, f: nat)
    requires f < frames
    ensures 0 <= f * channels && f * channels + channels <= frames * channels
  {
    assert (f + 1) * channels <= frames * channels;
  }

  function Mixed(rounded: real -> real, buffer: AudioBuffer): (mono: seq<real>)
    requires WholeFrames(buffer)
    ensures |mono| == |buffer.interleaved| / buffer.spec.channelCount
  {
    var channels := buffer.spec.channelCount;
    var frames := |buffer.interleaved| / channels;
    seq(frames, f requires 0 <= f < frames =>
      FrameFits(frames, channels, f);
      FrameSum(rounded, buffer.interleaved, channels, f * channels, channels))
  }

  // ---------------------------------------------------------------------------------------
  // What a stream comes to
  // ---------------------------------------------------------------------------------------

  /** What becomes of a packet: mono audio, another track's, or a refusal by the decoder. */
  datatype Item = Heard(spec: AudioSpec, mono: seq<real>) | Foreign | Refused(error: Error)

  /** How the events run out: at an end, real or cut short, or at an error. */
  datatype Ending = Ended | Stopped(error: Error)

  datatype Transcript = Transcript(items: seq<Item>, ending: Ending)

  predicate IsUnexpectedEof(error: Error) {
    error == IoError(UnexpectedEof)
  }

  function ItemOf(rounded: real -> real, result: Result<AudioBuffer, Error>): Item
    requires result.Success? ==> WholeFrames(result.value)
  {
    match result
    case Failure(error) => Refused(error)
    case Success(buffer) => Heard(buffer.spec, Mixed(rounded, buffer))
  }

  /** What becomes of every packet, if one kept reading whatever the decoder refuses. */
  ghost function Transcribed<D(!new)>(registry: Registry<D>, current: TrackDecoder<D>, events: seq<Event>): Transcript
    requires registry.Lawful()
    decreases |events|
  {
    if events == [] then Transcript([], Ended)
    else
      match events[0]
      case PacketRead(packet) =>
        if packet.trackId != current.trackId then
          var rest := Transcribed(registry, current, events[1..]);
          Transcript([Foreign] + rest.items, rest.ending)
        else
          var decoding := registry.decode(current.decoder, packet);
          var rest := Transcribed(registry, current.(decoder := decoding.next), events[1..]);
          Transcript([ItemOf(registry.rounded, decoding.result)] + rest.items, rest.ending)
      case ResetRequired(tracks) =>
        (match DecoderFor(registry, tracks)
         case Failure(error) => Transcript([], Stopped(error))
         case Success(next) => Transcribed(registry, next, events[1..]))
      case StreamEnd => Transcript([], Ended)
      case ReadError(error) => Transcript([], if IsUnexpectedEof(error) then Ended else Stopped(error))
  }

  /** The chunks of the items that are audio. */
  function Chunks(items: seq<Item>): seq<seq<real>> {
    if items == [] then [] else (if items[0].Heard? then [items[0].mono] else []) + Chunks(items[1..])
  }

  /**
    A stream decodes when it ends without an error, has audio, all under one spec, and nothing
    refused but at most its very last packet, and that with an I/O error.
   */
  ghost predicate DecodesUnder(transcript: Transcript, spec: AudioSpec) {
    && transcript.ending == Ended
    && (forall i | 0 <= i < |transcript.items| && transcript.items[i].Heard? :: transcript.items[i].spec == spec)
    && (forall i | 0 <= i < |transcript.items| && transcript.items[i].Refused? ::
          i == |transcript.items| - 1 && transcript.items[i].error.IoError?)
  }

  ghost predicate HasAudio(transcript: Transcript) {
    exists i :: 0 <= i < |transcript.items| && transcript.items[i].Heard?
  }

  // ---------------------------------------------------------------------------------------
  // Reading it with the first refusal, error or change of format in the way
  // ---------------------------------------------------------------------------------------

  datatype Outcome = NextChunk(spec: AudioSpec, mono: seq<real>, rest: Transcript) | Finished | Failed(error: Error)

  function OutcomeAtEnd(ending: Ending): Outcome {
    match ending
    case Ended => Finished
    case Stopped(error) => Failed(error)
  }

  function Rest(transcript: Transcript): Transcript
    requires transcript.items != []
  {
    Transcript(transcript.items[1..], transcript.ending)
  }

  /** The next chunk a transcript has to give. */
  function NextOf(transcript: Transcript): (outcome: Outcome)
    ensures outcome.NextChunk? ==> |outcome.rest.items| < |transcript.items|
    decreases |transcript.items|
  {
    if transcript.items == [] then OutcomeAtEnd(transcript.ending)
    else
      match transcript.items[0]
      case Foreign => NextOf(Rest(transcript))
      case Heard(spec, mono) => NextChunk(spec, mono, Rest(transcript))
      case Refused(error) =>
        if error.IoError? && |transcript.items| == 1 then OutcomeAtEnd(transcript.ending) else Failed(error)
  }

  function Prepended(mono: seq<real>, rest: Result<seq<seq<real>>, Error>): Result<seq<seq<real>>, Error> {
    match rest
    case Failure(error) => Failure(error)
    case Success(chunks) => Success([mono] + chunks)
  }

  /** All the chunks a transcript has to give under one spec. */
  function ChunksUnder(transcript: Transcript, spec: AudioSpec): Result<seq<seq<real>>, Error>
    decreases |transcript.items|
  {
    match NextOf(transcript)
    case Finished => Success([])
    case Failed(error) => Failure(error)
    case NextChunk(other, mono, rest) =>
      if other != spec then Failure(FORMAT_CHANGES) else Prepended(mono, ChunksUnder(rest, spec))
  }

  /** All the chunks of a stream, the first of which says under which spec. */
  function StreamOf(transcript: Transcript): Result<seq<seq<real>>, Error> {
    match NextOf(transcript)
    case Finished => Failure(NO_AUDIO)
    case Failed(error) => Failure(error)
    case NextChunk(spec, mono, rest) => Prepended(mono, ChunksUnder(rest, spec))
  }

  lemma DecodesStep(transcript: Transcript, spec: AudioSpec)
    requires transcript.items != []
    ensures var item := transcript.items[0];
            DecodesUnder(transcript, spec) <==>
              && DecodesUnder(Rest(transcript), spec)
              && (item.Heard? ==> item.spec == spec)
              && (item.Refused? ==> |transcript.items| == 1 && item.error.IoError?)
  {
    var items, rest := transcript.items, transcript.items[1..];
    assert forall i | 0 <= i < |rest| :: rest[i] == items[i + 1];
    assert forall i | 0 < i < |items| :: items[i] == rest[i - 1];
  }

  /**
    A transcript gives all its chunks exactly when it decodes, and then each once, in order.
   */
  lemma {:induction false} ChunksIffDecodes(transcript: Transcript, spec: AudioSpec)
    ensures ChunksUnder(transcript, spec).Success? <==> DecodesUnder(transcript, spec)
    ensures ChunksUnder(transcript, spec).Success? ==> ChunksUnder(transcript, spec).value == Chunks(transcript.items)
    decreases |transcript.items|
  {
    if transcript.items != [] {
      ChunksIffDecodes(Rest(transcript), spec);
      DecodesStep(transcript, spec);
    }
  }

  /** A stream decodes exactly when it has audio and decodes under a spec, which is that of its first chunk. */
  lemma {:induction false} StreamIffDecodes(transcript: Transcript)
    ensures StreamOf(transcript).Success? <==> HasAudio(transcript) && exists spec :: DecodesUnder(transcript, spec)
    ensures StreamOf(transcript).Success? ==> StreamOf(transcript).value == Chunks(transcript.items)
    decreases |transcript.items|
  {
    if transcript.items != [] {
      match transcript.items[0]
      case Heard(spec, mono) =>
        ChunksIffDecodes(Rest(transcript), spec);
        DecodesStep(transcript, spec);
        assert HasAudio(transcript);
        forall other | DecodesUnder(transcript, other) ensures other == spec {
        }
      case Foreign =>
        StreamIffDecodes(Rest(transcript));
        AudioIsInTheRest(transcript);
        forall spec ensures DecodesUnder(transcript, spec) <==> DecodesUnder(Rest(transcript), spec) {
          DecodesStep(transcript, spec);
        }
      case Refused(_) =>
        AudioIsInTheRest(transcript);
        forall spec | DecodesUnder(transcript, spec) ensures !HasAudio(transcript) {
          DecodesStep(transcript, spec);
        }
    }
  }

  lemma AudioIsInTheRest(transcript: Transcript)
    requires transcript.items != [] && !transcript.items[0].Heard?
    ensures HasAudio(transcript) <==> HasAudio(Rest(transcript))
  {
    if HasAudio(transcript) {
      var i :| 0 <= i < |transcript.items| && transcript.items[i].Heard?;
      assert Rest(transcript).items[i - 1].Heard?;
    }
    if HasAudio(Rest(transcript)) {
      var i :| 0 <= i < |Rest(transcript).items| && Rest(transcript).items[i].Heard?;
      assert transcript.items[i + 1].Heard?;
    }
  }
}
