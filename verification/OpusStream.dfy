/** Opus packets through the packet decoder: from an `OpusHead` to the mono audio of the stream. */
module OpusStream {
  import opened Common
  import opened PacketDecoding
  import OpusHeader
  import OpusDecoding
  import PacketReading

  type Frame = OpusDecoding.Frame

  const OPUS_SAMPLE_RATE := 48000
  const NO_HEADER := Unsupported("opus: the stream carries no `OpusHead` header")
  const REFUSED := Unsupported("opus: libopus refused the stream")
  const REJECTED := DecodeError("opus: libopus rejected the packet")

  /** libopus: opened on a layout, it decodes to frames of as many channels as that maps. */
  datatype Libopus<!S(!new)> = Libopus(
    open: OpusHeader.StreamLayout -> Option<S>,
    channels: S -> nat,
    decode: OpusDecoding.Codec<S>,
    gain: i16 -> real,
    rounded: real -> real
  ) {
    ghost predicate Lawful() {
      && (forall s :: channels(s) > 0)
      && (forall layout | open(layout).Some? :: channels(open(layout).value) == |layout.channelMapping|)
      && (forall s, data :: channels(decode(s, data).next) == channels(s))
      && (forall s, data | decode(s, data).frames.Some? :: AllOf(decode(s, data).frames.value, channels(s)))
    }
  }

  ghost predicate AllOf(frames: seq<Frame>, channels: nat) {
    forall i | 0 <= i < |frames| :: |frames[i]| == channels
  }

  /** What a decoder of one stream carries from packet to packet. */
  datatype OpusState<+S> = OpusState(libopus: S, outputGain: OpusDecoding.Amplifier, framesToSkip: nat)

  /** Builds a decoder on the header of a track. */
  function Make<S(!new)>(lib: Libopus<S>, track: Track): Result<OpusState<S>, Error> {
    if track.extraData.None? then Failure(NO_HEADER)
    else
      match OpusHeader.Parse(track.extraData.value)
      case Failure(error) => Failure(error)
      case Success(head) =>
        match lib.open(head.layout)
        case None => Failure(REFUSED)
        case Some(s) =>
          Success(OpusState(s, OpusDecoding.Amplifier(lib.gain(head.outputGain), lib.rounded), head.preSkip))
  }

  /** The buffer a packet leaves. */
  function BufferOf(channels: nat, frames: seq<Frame>): AudioBuffer {
    AudioBuffer(AudioSpec(OPUS_SAMPLE_RATE, 0, channels), Concat(frames))
  }

  /** What a packet that decodes to the given frames contributes. */
  function KeptOf<S(!new)>(state: OpusState<S>, packet: Packet, frames: seq<Frame>): seq<Frame> {
    OpusDecoding.Kept(state.framesToSkip, packet, OpusDecoding.AllAmplified(frames, state.outputGain))
  }

  function DecodePacket<S(!new)>(lib: Libopus<S>, state: OpusState<S>, packet: Packet): Decoding<OpusState<S>> {
    var step := lib.decode(state.libopus, packet.data);
    match step.frames
    case None => Decoding(state.(libopus := step.next), Failure(REJECTED))
    case Some(frames) =>
      var stillOwed := OpusDecoding.StillOwed(state.framesToSkip, packet, |frames|);
      Decoding(OpusState(step.next, state.outputGain, stillOwed),
               Success(BufferOf(lib.channels(state.libopus), KeptOf(state, packet, frames))))
  }

  /** A registry of nothing but Opus. */
  function OpusRegistry<S(!new)>(lib: Libopus<S>, opusId: nat): Registry<OpusState<S>> {
    Registry((codec: nat) => codec == opusId, (track: Track) => Make(lib, track),
             (state: OpusState<S>, packet: Packet) => DecodePacket(lib, state, packet), lib.rounded)
  }

  lemma {:induction false} ConcatOfFrames(frames: seq<Frame>, channels: nat)
    requires AllOf(frames, channels)
    ensures |Concat(frames)| == |frames| * channels
  {
    if frames != [] {
      assert AllOf(frames[1..], channels);
      ConcatOfFrames(frames[1..], channels);
    }
  }

  lemma KeptFrames<S(!new)>(state: OpusState<S>, packet: Packet, frames: seq<Frame>, channels: nat)
    requires AllOf(frames, channels)
    ensures AllOf(KeptOf(state, packet, frames), channels)
  {
  }

  lemma ManyWholeFrames(frames: nat, channels: nat)
    requires channels > 0
    ensures frames * channels % channels == 0 && frames * channels / channels == frames
  {
    var samples := frames * channels;
    var q := samples / channels;
    assert q * channels <= samples < q * channels + channels && samples % channels == samples - q * channels;
    PacketReading.FramesAreApart(frames, q, channels);
    PacketReading.FramesAreApart(q, frames, channels);
  }

  lemma BufferIsWhole(channels: nat, frames: seq<Frame>)
    requires channels > 0 && AllOf(frames, channels)
    ensures WholeFrames(BufferOf(channels, frames)) && |Concat(frames)| / channels == |frames|
  {
    ConcatOfFrames(frames, channels);
    ManyWholeFrames(|frames|, channels);
  }

  lemma OpusRegistryIsLawful<S(!new)>(lib: Libopus<S>, opusId: nat)
    requires lib.Lawful()
    ensures OpusRegistry(lib, opusId).Lawful()
  {
    forall state, packet | DecodePacket(lib, state, packet).result.Success?
      ensures WholeFrames(DecodePacket(lib, state, packet).result.value)
    {
      var frames := lib.decode(state.libopus, packet.data).frames.value;
      KeptFrames(state, packet, frames, lib.channels(state.libopus));
      BufferIsWhole(lib.channels(state.libopus), KeptOf(state, packet, frames));
    }
  }

  // ---------------------------------------------------------------------------------------
  // A whole stream
  // ---------------------------------------------------------------------------------------

  /** The average of a frame's channels. */
  function Average(rounded: real -> real, frame: Frame): real
    requires |frame| > 0
  {
    FrameSum(rounded, frame, |frame|, 0, |frame|)
  }

  function Averages(rounded: real -> real, frames: seq<Frame>): (mono: seq<real>)
    ensures |mono| == |frames|
  {
    seq(|frames|, i requires 0 <= i < |frames| => if |frames[i]| > 0 then Average(rounded, frames[i]) else 0.0)
  }

  lemma {:induction false} FrameInConcat(frames: seq<Frame>, channels: nat, f: nat)
    requires AllOf(frames, channels) && f < |frames|
    ensures f * channels + channels <= |Concat(frames)|
    ensures Concat(frames)[f * channels..f * channels + channels] == frames[f]
    decreases |frames|
  {
    var rest := frames[1..];
    assert AllOf(rest, channels);
    assert Concat(frames) == frames[0] + Concat(rest);
    if f > 0 {
      FrameInConcat(rest, channels, f - 1);
      var at := (f - 1) * channels;
      assert f * channels == channels + at;
      assert Concat(frames)[channels + at..channels + at + channels] == Concat(rest)[at..at + channels];
    }
  }

  lemma {:induction false} SumInStretch(rounded: real -> real, whole: seq<real>, start: nat, frame: seq<real>,
                                        channels: nat, count: nat)
    requires channels > 0 && count <= |frame|
    requires start + |frame| <= |whole| && whole[start..start + |frame|] == frame
    ensures FrameSum(rounded, whole, channels, start, count) == FrameSum(rounded, frame, channels, 0, count)
  {
    if count > 0 {
      SumInStretch(rounded, whole, start, frame, channels, count - 1);
      assert whole[start + count - 1] == whole[start..start + |frame|][count - 1];
    }
  }

  lemma BufferMixesToAverages(rounded: real -> real, channels: nat, frames: seq<Frame>)
    requires channels > 0 && AllOf(frames, channels)
    ensures WholeFrames(BufferOf(channels, frames))
    ensures Mixed(rounded, BufferOf(channels, frames)) == Averages(rounded, frames)
  {
    BufferIsWhole(channels, frames);
    var mono := Mixed(rounded, BufferOf(channels, frames));
    forall f | 0 <= f < |frames| ensures mono[f] == Averages(rounded, frames)[f] {
      FrameInConcat(frames, channels, f);
      SumInStretch(rounded, Concat(frames), f * channels, frames[f], channels, channels);
    }
  }

  /** What a run of packets decodes to, and what comes of it. */
  function RunOf<S(!new)>(lib: Libopus<S>, state: OpusState<S>, packets: seq<Packet>): seq<OpusDecoding.Decoded> {
    OpusDecoding.Decodes(lib.decode, state.libopus, state.outputGain, packets)
  }

  function OutputOf<S(!new)>(lib: Libopus<S>, state: OpusState<S>, packets: seq<Packet>): seq<Frame> {
    OpusDecoding.Output(state.framesToSkip, RunOf(lib, state, packets))
  }

  /** The packets are all of one track, and libopus accepts each. */
  ghost predicate AllAccepted<S(!new)>(lib: Libopus<S>, trackId: nat, state: OpusState<S>, packets: seq<Packet>) {
    && (forall i | 0 <= i < |packets| :: packets[i].trackId == trackId)
    && |RunOf(lib, state, packets)| == |packets|
  }

  /** Every item is audio of so many channels at 48 kHz. */
  ghost predicate AllHeard(items: seq<Item>, channels: nat) {
    forall i | 0 <= i < |items| :: items[i].Heard? && items[i].spec == AudioSpec(OPUS_SAMPLE_RATE, 0, channels)
  }

  /** The stream is heard from end to end, and comes to the average of each frame of the decoder's output. */
  ghost predicate ComesTo(rounded: real -> real, transcript: Transcript, count: nat, channels: nat,
                          output: seq<Frame>)
  {
    && transcript.ending == Ended && |transcript.items| == count
    && AllHeard(transcript.items, channels)
    && Concat(Chunks(transcript.items)) == Averages(rounded, output)
  }

  lemma HeardFirst(rounded: real -> real, item: Item, rest: Transcript, channels: nat, first: seq<Frame>, count: nat,
                   output: seq<Frame>)
    requires ComesTo(rounded, rest, count, channels, output)
    requires item == Heard(AudioSpec(OPUS_SAMPLE_RATE, 0, channels), Averages(rounded, first))
    ensures ComesTo(rounded, Transcript([item] + rest.items, rest.ending), count + 1, channels, first + output)
  {
    var items := [item] + rest.items;
    assert items[1..] == rest.items;
    assert Chunks(items) == [Averages(rounded, first)] + Chunks(rest.items);
    assert ([Averages(rounded, first)] + Chunks(rest.items))[1..] == Chunks(rest.items);
    assert Averages(rounded, first + output) == Averages(rounded, first) + Averages(rounded, output);
  }

  /** The first packet of a run, accepted: what is heard of it, and what is left. */
  lemma AcceptedFirst<S(!new)>(lib: Libopus<S>, trackId: nat, state: OpusState<S>, packets: seq<Packet>)
    returns (kept: seq<Frame>)
    requires lib.Lawful() && packets != [] && AllAccepted(lib, trackId, state, packets)
    ensures var decoding, channels := DecodePacket(lib, state, packets[0]), lib.channels(state.libopus);
            && decoding.result == Success(BufferOf(channels, kept))
            && AllOf(kept, channels) && lib.channels(decoding.next.libopus) == channels
            && AllAccepted(lib, trackId, decoding.next, packets[1..])
            && OutputOf(lib, state, packets) == kept + OutputOf(lib, decoding.next, packets[1..])
  {
    var frames := lib.decode(state.libopus, packets[0].data).frames.value;
    kept := KeptOf(state, packets[0], frames);
    KeptFrames(state, packets[0], frames, lib.channels(state.libopus));
    var run, rest := RunOf(lib, state, packets), RunOf(lib, DecodePacket(lib, state, packets[0]).next, packets[1..]);
    assert run == [OpusDecoding.Decoded(packets[0], OpusDecoding.AllAmplified(frames, state.outputGain))] + rest;
    assert run[1..] == rest;
  }

  lemma {:induction false} AcceptedStream<S(!new)>(lib: Libopus<S>, opusId: nat, trackId: nat, state: OpusState<S>,
                                                   packets: seq<Packet>)
    requires lib.Lawful() && OpusRegistry(lib, opusId).Lawful() && AllAccepted(lib, trackId, state, packets)
    ensures ComesTo(lib.rounded, Transcribed(OpusRegistry(lib, opusId), TrackDecoder(trackId, state), Reads(packets)),
                    |packets|, lib.channels(state.libopus), OutputOf(lib, state, packets))
    decreases |packets|
  {
    if packets != [] {
      var registry, channels := OpusRegistry(lib, opusId), lib.channels(state.libopus);
      var kept := AcceptedFirst(lib, trackId, state, packets);
      var next := DecodePacket(lib, state, packets[0]).next;
      AcceptedStream(lib, opusId, trackId, next, packets[1..]);
      BufferMixesToAverages(lib.rounded, channels, kept);
      assert Reads(packets)[1..] == Reads(packets[1..]);
      HeardFirst(lib.rounded, ItemOf(lib.rounded, DecodePacket(lib, state, packets[0]).result),
                 Transcribed(registry, TrackDecoder(trackId, next), Reads(packets[1..])),
                 channels, kept, |packets| - 1, OutputOf(lib, next, packets[1..]));
    }
  }

  lemma HeardChunks(rounded: real -> real, transcript: Transcript, count: nat, channels: nat, output: seq<Frame>)
    requires ComesTo(rounded, transcript, count, channels, output) && count > 0
    ensures StreamOf(transcript) == Success(Chunks(transcript.items))
  {
    assert DecodesUnder(transcript, AudioSpec(OPUS_SAMPLE_RATE, 0, channels));
    assert HasAudio(transcript) by {
      assert transcript.items[0].Heard?;
    }
    StreamIffDecodes(transcript);
  }

  /** A packet libopus rejects is malformed, and uses up none of the skip. */
  lemma RejectedPacket<S(!new)>(lib: Libopus<S>, state: OpusState<S>, packet: Packet)
    requires lib.decode(state.libopus, packet.data).frames.None?
    ensures var decoding := DecodePacket(lib, state, packet);
            && decoding.result.Failure? && decoding.result.error.DecodeError?
            && decoding.next.framesToSkip == state.framesToSkip && decoding.next.outputGain == state.outputGain
            && decoding.next.libopus == lib.decode(state.libopus, packet.data).next
  {
  }

  lemma {:induction false} RejectedInTranscript<S(!new)>(lib: Libopus<S>, opusId: nat, trackId: nat,
                                                         state: OpusState<S>, packets: seq<Packet>)
    returns (i: nat)
    requires lib.Lawful() && OpusRegistry(lib, opusId).Lawful()
    requires forall j | 0 <= j < |packets| :: packets[j].trackId == trackId
    requires |RunOf(lib, state, packets)| < |packets|
    ensures var items := Transcribed(OpusRegistry(lib, opusId), TrackDecoder(trackId, state), Reads(packets)).items;
            i < |items| && items[i].Refused? && items[i].error.DecodeError?
    decreases |packets|
  {
    assert Reads(packets)[1..] == Reads(packets[1..]);
    if lib.decode(state.libopus, packets[0].data).frames.None? {
      RejectedPacket(lib, state, packets[0]);
      i := 0;
    } else {
      var next := DecodePacket(lib, state, packets[0]).next;
      assert |RunOf(lib, state, packets)| == 1 + |RunOf(lib, next, packets[1..])|;
      var later := RejectedInTranscript(lib, opusId, trackId, next, packets[1..]);
      i := later + 1;
    }
  }

  /** So a stream with one rejected packet does not decode, wherever that is. */
  lemma RejectedPacketRefuses<S(!new)>(lib: Libopus<S>, opusId: nat, track: Track, state: OpusState<S>,
                                       packets: seq<Packet>)
    requires lib.Lawful() && OpusRegistry(lib, opusId).Lawful()
    requires track.codec == Some(opusId) && Make(lib, track) == Success(state)
    requires forall j | 0 <= j < |packets| :: packets[j].trackId == track.id
    requires |RunOf(lib, state, packets)| < |packets|
    ensures PacketReading.StreamFrom(OpusRegistry(lib, opusId), [track], Reads(packets)).Failure?
  {
    var registry := OpusRegistry(lib, opusId);
    assert DecoderFor(registry, [track]) == Success(TrackDecoder(track.id, state)) by {
      assert Decodable(registry, track) && [track][0] == track;
    }
    var i := RejectedInTranscript(lib, opusId, track.id, state, packets);
    StreamIffDecodes(Transcribed(registry, TrackDecoder(track.id, state), Reads(packets)));
  }

  /** A track without a header, or with one libopus has no layout for, is unsupported. */
  lemma UnopenedTrackIsUnsupported<S(!new)>(lib: Libopus<S>, track: Track)
    requires track.extraData.None? || (OpusHeader.Parse(track.extraData.value).Success?
                                       && lib.open(OpusHeader.Parse(track.extraData.value).value.layout).None?)
    ensures Make(lib, track).Failure? && Make(lib, track).error.Unsupported?
  {
  }

  /**
    A stream of one Opus track, every packet of it accepted, is delivered as the average of each
    frame its decoder outputs; and what is delivered is the average of each frame the packets decode
    to beyond the pre-skip of the header exactly when the container trims nothing more than that.
   */
  lemma OpusStreamIsDelivered<S(!new)>(lib: Libopus<S>, opusId: nat, track: Track, head: OpusHeader.OpusHead, s: S,
                                       gain: OpusDecoding.Amplifier, packets: seq<Packet>)
    requires lib.Lawful() && track.codec == Some(opusId) && packets != []
    requires track.extraData.Some? && OpusHeader.Parse(track.extraData.value) == Success(head)
    requires lib.open(head.layout) == Some(s) && gain == OpusDecoding.Amplifier(lib.gain(head.outputGain), lib.rounded)
    requires AllAccepted(lib, track.id, OpusState(s, gain, head.preSkip), packets)
    ensures OpusRegistry(lib, opusId).Lawful()
    ensures var run := OpusDecoding.Decodes(lib.decode, s, gain, packets);
            var stream := PacketReading.StreamFrom(OpusRegistry(lib, opusId), [track], Reads(packets));
            && stream.Success?
            && Concat(stream.value) == Averages(lib.rounded, OpusDecoding.Output(head.preSkip, run))
            && |Concat(stream.value)| <= |OpusDecoding.Skipped(head.preSkip, run)|
            && (Concat(stream.value) == Averages(lib.rounded, OpusDecoding.Skipped(head.preSkip, run))
                <==> OpusDecoding.RunTrimsOnlySkip(head.preSkip, run))
    ensures PacketReading.OpeningSpec(OpusRegistry(lib, opusId), [track], Reads(packets))
         == AudioSpec(48000, 0, |head.layout.channelMapping|)
  {
    OpusRegistryIsLawful(lib, opusId);
    var state := OpusState(s, gain, head.preSkip);
    var run, output := RunOf(lib, state, packets), OutputOf(lib, state, packets);
    var registry := OpusRegistry(lib, opusId);
    assert DecoderFor(registry, [track]) == Success(TrackDecoder(track.id, state)) by {
      assert Decodable(registry, track) && [track][0] == track;
    }
    AcceptedStream(lib, opusId, track.id, state, packets);
    var transcript := Transcribed(registry, TrackDecoder(track.id, state), Reads(packets));
    HeardChunks(lib.rounded, transcript, |packets|, lib.channels(s), output);
    assert transcript.items[0].Heard?;
    OpusDecoding.OutputIsBounded(head.preSkip, run);
    OpusDecoding.SkipIsConservedIff(head.preSkip, run);
    OpusDecoding.LengthTellsTrims(head.preSkip, run);
  }
}
