/** What a stream does without: the packets of other tracks, those tracks, and whatever follows an error. */
module PacketLaws {
  import opened Common
  import opened PacketDecoding
  import opened PacketReading
  import opened Rounding

  // ---------------------------------------------------------------------------------------
  // Other tracks
  // ---------------------------------------------------------------------------------------

  /** The events without the packets of other tracks than the one being decoded at the time. */
  function OnTrack<D(!new)>(registry: Registry<D>, trackId: nat, events: seq<Event>): seq<Event>
    decreases |events|
  {
    if events == [] then []
    else
      match events[0]
      case PacketRead(packet) =>
        var rest := OnTrack(registry, trackId, events[1..]);
        if packet.trackId == trackId then [events[0]] + rest else rest
      case ResetRequired(tracks) =>
        (match DecoderFor(registry, tracks)
         case Failure(_) => [events[0]]
         case Success(next) => [events[0]] + OnTrack(registry, next.trackId, events[1..]))
      case _ => [events[0]]
  }

  function Own(items: seq<Item>): seq<Item> {
    if items == [] then []
    else if items[0].Foreign? then Own(items[1..])
    else [items[0]] + Own(items[1..])
  }

  lemma Continues(event: Event, rest: seq<Event>)
    ensures ([event] + rest)[0] == event && ([event] + rest)[1..] == rest
  {
  }

  /** Without the packets of other tracks, the transcript is what it was without their places in it. */
  lemma {:induction false} OthersAreNotHeard<D(!new)>(registry: Registry<D>, current: TrackDecoder<D>,
                                                      events: seq<Event>)
    requires registry.Lawful()
    ensures var whole := Transcribed(registry, current, events);
            Transcribed(registry, current, OnTrack(registry, current.trackId, events))
              == Transcript(Own(whole.items), whole.ending)
    decreases |events|
  {
    if events != [] {
      match events[0]
      case PacketRead(packet) =>
        var after := if packet.trackId != current.trackId then current
                     else current.(decoder := registry.decode(current.decoder, packet).next);
        OthersAreNotHeard(registry, after, events[1..]);
        Continues(events[0], OnTrack(registry, current.trackId, events[1..]));
        OwnOfMore(ItemOf(registry.rounded, registry.decode(current.decoder, packet).result),
                  Transcribed(registry, after, events[1..]).items);
      case ResetRequired(tracks) =>
        var next := DecoderFor(registry, tracks);
        if next.Success? {
          OthersAreNotHeard(registry, next.value, events[1..]);
          Continues(events[0], OnTrack(registry, next.value.trackId, events[1..]));
        }
      case StreamEnd =>
      case ReadError(_) =>
    }
  }

  lemma OwnOfMore(item: Item, items: seq<Item>)
    ensures Own([item] + items) == if item.Foreign? then Own(items) else [item] + Own(items)
    ensures Own([Foreign] + items) == Own(items)
  {
    assert ([item] + items)[1..] == items && ([Foreign] + items)[1..] == items;
  }

  lemma {:induction false} OwnChunks(items: seq<Item>)
    ensures Chunks(Own(items)) == Chunks(items)
  {
    if items != [] {
      OwnChunks(items[1..]);
      ChunksOfMore(items[0], Own(items[1..]));
      assert items == [items[0]] + items[1..];
      ChunksOfMore(items[0], items[1..]);
    }
  }

  lemma ChunksOfMore(item: Item, items: seq<Item>)
    ensures Chunks([item] + items) == if item.Heard? then [item.mono] + Chunks(items) else Chunks(items)
  {
    assert ([item] + items)[1..] == items && [] + Chunks(items) == Chunks(items);
  }

  /** No packet of any track follows a refused one. */
  ghost predicate RefusedLast(items: seq<Item>) {
    forall i | 0 <= i < |items| - 1 :: !items[i].Refused?
  }

  lemma RefusedLastStep(items: seq<Item>)
    requires items != []
    ensures RefusedLast(items) <==> RefusedLast(items[1..]) && (items[0].Refused? ==> |items| == 1)
  {
    assert forall i | 0 <= i < |items[1..]| :: items[1..][i] == items[i + 1];
    assert forall i | 0 < i < |items| :: items[i] == items[1..][i - 1];
  }

  lemma {:induction false} OwnDecodes(transcript: Transcript, spec: AudioSpec)
    ensures DecodesUnder(transcript, spec)
       <==> DecodesUnder(Transcript(Own(transcript.items), transcript.ending), spec) && RefusedLast(transcript.items)
    decreases |transcript.items|
  {
    var items := transcript.items;
    if items != [] {
      OwnDecodes(Rest(transcript), spec);
      DecodesStep(transcript, spec);
      RefusedLastStep(items);
      if !items[0].Foreign? {
        var own := Transcript(Own(items), transcript.ending);
        assert own.items[1..] == Own(items[1..]);
        DecodesStep(own, spec);
      }
    }
  }

  lemma {:induction false} OwnHasAudio(transcript: Transcript)
    ensures HasAudio(transcript) <==> HasAudio(Transcript(Own(transcript.items), transcript.ending))
    decreases |transcript.items|
  {
    var items := transcript.items;
    if items != [] {
      var own := Transcript(Own(items), transcript.ending);
      if items[0].Heard? {
        assert own.items[0].Heard?;
        assert HasAudio(transcript) && HasAudio(own);
      } else {
        OwnHasAudio(Rest(transcript));
        AudioIsInTheRest(transcript);
        if items[0].Refused? {
          assert own.items[1..] == Own(items[1..]);
          AudioIsInTheRest(own);
        }
      }
    }
  }

  lemma OwnStream(transcript: Transcript)
    ensures var own := Transcript(Own(transcript.items), transcript.ending);
            && (StreamOf(transcript).Success? <==> StreamOf(own).Success? && RefusedLast(transcript.items))
            && (StreamOf(transcript).Success? ==> StreamOf(own) == StreamOf(transcript))
  {
    var own := Transcript(Own(transcript.items), transcript.ending);
    StreamIffDecodes(transcript);
    StreamIffDecodes(own);
    OwnHasAudio(transcript);
    OwnChunks(transcript.items);
    forall spec ensures DecodesUnder(transcript, spec) <==> DecodesUnder(own, spec) && RefusedLast(transcript.items) {
      OwnDecodes(transcript, spec);
    }
  }

  /**
    A stream gives the chunks it would without the packets of other tracks, except that one of those
    still behind a refused packet keeps that from being the end.
   */
  lemma OtherTracksAreSkipped<D(!new)>(registry: Registry<D>, tracks: seq<Track>, events: seq<Event>)
    requires registry.Lawful() && DecoderFor(registry, tracks).Success?
    ensures var current := DecoderFor(registry, tracks).value;
            var stream := StreamFrom(registry, tracks, events);
            var own := StreamFrom(registry, tracks, OnTrack(registry, current.trackId, events));
            && (stream.Success? <==> own.Success? && RefusedLast(Transcribed(registry, current, events).items))
            && (stream.Success? ==> own == stream)
  {
    var current := DecoderFor(registry, tracks).value;
    OthersAreNotHeard(registry, current, events);
    OwnStream(Transcribed(registry, current, events));
  }

  lemma {:induction false} FirstIsFound<D(!new)>(registry: Registry<D>, others: seq<Track>, track: Track,
                                                 more: seq<Track>)
    requires (forall other | other in others :: !Decodable(registry, other)) && Decodable(registry, track)
    ensures FirstDecodable(registry, others + [track] + more) == Some(track)
  {
    var tracks := others + [track] + more;
    if others != [] {
      assert others[0] in others && tracks[1..] == others[1..] + [track] + more;
      FirstIsFound(registry, others[1..], track, more);
    }
  }

  /** The decoder is made of the first decodable track and listens to its packets, whatever tracks are around it. */
  lemma FirstTrackIsDecoded<D(!new)>(registry: Registry<D>, others: seq<Track>, track: Track, more: seq<Track>)
    requires forall other | other in others :: other.codec.None? || !registry.supports(other.codec.value)
    requires track.codec.Some? && registry.supports(track.codec.value)
    ensures match registry.make(track)
            case Failure(error) => DecoderFor(registry, others + [track] + more) == Failure(error)
            case Success(d) => DecoderFor(registry, others + [track] + more) == Success(TrackDecoder(track.id, d))
  {
    FirstIsFound(registry, others, track, more);
  }

  // ---------------------------------------------------------------------------------------
  // Errors of the reader
  // ---------------------------------------------------------------------------------------

  /** How a stream ends at an event that is not a packet, if it does. */
  function EndAt<D(!new)>(registry: Registry<D>, event: Event): Option<Ending> {
    match event
    case PacketRead(_) => None
    case StreamEnd => Some(Ended)
    case ReadError(error) => if error == IoError(UnexpectedEof) then Some(Ended) else Some(Stopped(error))
    case ResetRequired(tracks) =>
      match DecoderFor(registry, tracks)
      case Failure(error) => Some(Stopped(error))
      case Success(_) => None
  }

  /**
    The end, and an unexpected end of file, end a stream alike; any other error of the reader, and a
    reset to tracks without a decoder, are the stream's own. Nothing behind them is heard.
   */
  lemma {:induction false} StreamEndsThere<D(!new)>(registry: Registry<D>, current: TrackDecoder<D>,
                                                    packets: seq<Packet>, event: Event, rest: seq<Event>)
    requires registry.Lawful() && EndAt(registry, event).Some?
    ensures Transcribed(registry, current, Reads(packets) + ([event] + rest))
         == Transcript(Transcribed(registry, current, Reads(packets)).items, EndAt(registry, event).value)
    decreases |packets|
  {
    var tail := [event] + rest;
    if packets == [] {
      assert Reads(packets) + tail == tail;
    } else {
      LinkContinues(packets, tail);
      var after := if packets[0].trackId != current.trackId then current
                   else current.(decoder := registry.decode(current.decoder, packets[0]).next);
      StreamEndsThere(registry, after, packets[1..], event, rest);
    }
  }

  /** So no stream with any other error, or with a link that cannot be decoded, decodes. */
  lemma OtherErrorsRefuse<D(!new)>(registry: Registry<D>, tracks: seq<Track>, packets: seq<Packet>, event: Event,
                                   rest: seq<Event>)
    requires registry.Lawful()
    requires || (event.ReadError? && event.error != IoError(UnexpectedEof))
             || (event.ResetRequired? && DecoderFor(registry, event.tracks).Failure?)
    ensures StreamFrom(registry, tracks, Reads(packets) + ([event] + rest)).Failure?
  {
    if DecoderFor(registry, tracks).Success? {
      var current := DecoderFor(registry, tracks).value;
      StreamEndsThere(registry, current, packets, event, rest);
      StreamIffDecodes(Transcribed(registry, current, Reads(packets) + ([event] + rest)));
    }
  }

  // ---------------------------------------------------------------------------------------
  // Refusals
  // ---------------------------------------------------------------------------------------

  /** A container without a decodable track is unsupported. */
  lemma NoTrackIsUnsupported<D(!new)>(registry: Registry<D>, tracks: seq<Track>, events: seq<Event>)
    requires registry.Lawful()
    requires forall track | track in tracks :: track.codec.None? || !registry.supports(track.codec.value)
    ensures StreamFrom(registry, tracks, events).Failure? && StreamFrom(registry, tracks, events).error.Unsupported?
  {
    assert forall track | track in tracks :: !Decodable(registry, track);
  }

  /** A stream that decodes to nothing at all is malformed. */
  lemma SilenceIsMalformed(transcript: Transcript, spec: AudioSpec)
    requires DecodesUnder(transcript, spec) && !HasAudio(transcript)
    ensures StreamOf(transcript).Failure? && StreamOf(transcript).error.DecodeError?
  {
    SilentStream(transcript, spec);
  }

  /** Nothing is refused and the end is reached, but some audio is under another spec. */
  ghost predicate LeavesSpec(transcript: Transcript, spec: AudioSpec) {
    && transcript.ending == Ended
    && (forall i | 0 <= i < |transcript.items| :: !transcript.items[i].Refused?)
    && (exists i | 0 <= i < |transcript.items| :: transcript.items[i].Heard? && transcript.items[i].spec != spec)
  }

  lemma LeavesLater(transcript: Transcript, spec: AudioSpec)
    requires transcript.items != [] && LeavesSpec(transcript, spec)
    requires transcript.items[0].Heard? ==> transcript.items[0].spec == spec
    ensures LeavesSpec(Rest(transcript), spec)
  {
    var items := transcript.items;
    var i :| 0 <= i < |items| && items[i].Heard? && items[i].spec != spec;
    assert Rest(transcript).items[i - 1] == items[i];
  }

  lemma {:induction false} ChunksLeaveSpec(transcript: Transcript, spec: AudioSpec)
    requires LeavesSpec(transcript, spec)
    ensures ChunksUnder(transcript, spec).Failure? && ChunksUnder(transcript, spec).error.Unsupported?
    decreases |transcript.items|
  {
    var item := transcript.items[0];
    if !(item.Heard? && item.spec != spec) {
      LeavesLater(transcript, spec);
      ChunksLeaveSpec(Rest(transcript), spec);
    }
  }

  /** A stream that changes format part-way is unsupported, though every packet of it decodes. */
  lemma {:induction false} FormatChangeIsUnsupported(transcript: Transcript)
    requires HasAudio(transcript) && forall spec :: LeavesSpec(transcript, spec)
    ensures StreamOf(transcript).Failure? && StreamOf(transcript).error.Unsupported?
    decreases |transcript.items|
  {
    var item := transcript.items[0];
    if item.Heard? {
      assert LeavesSpec(transcript, item.spec);
      LeavesLater(transcript, item.spec);
      ChunksLeaveSpec(Rest(transcript), item.spec);
    } else {
      assert LeavesSpec(transcript, AudioSpec(0, 0, 0));
      AudioIsInTheRest(transcript);
      forall spec ensures LeavesSpec(Rest(transcript), spec) {
        assert LeavesSpec(transcript, spec);
        LeavesLater(transcript, spec);
      }
      FormatChangeIsUnsupported(Rest(transcript));
    }
  }

  // ---------------------------------------------------------------------------------------
  // The mean
  // ---------------------------------------------------------------------------------------

  /** The sum of the first so many samples from a place on. */
  function Total(samples: seq<real>, start: nat, count: nat): real
    requires start + count <= |samples|
  {
    if count == 0 then 0.0 else Total(samples, start, count - 1) + samples[start + count - 1]
  }

  lemma {:induction false} SharesAddUp(rounded: real -> real, samples: seq<real>, channels: nat, start: nat, count: nat)
    requires channels > 0 && start + count <= |samples| && forall x :: rounded(x) == x
    ensures channels as real * FrameSum(rounded, samples, channels, start, count) == Total(samples, start, count)
  {
    if count > 0 {
      SharesAddUp(rounded, samples, channels, start, count - 1);
      var before, sample := FrameSum(rounded, samples, channels, start, count - 1), samples[start + count - 1];
      assert channels as real * (sample / channels as real) == sample;
      assert channels as real * (before + sample / channels as real) == channels as real * before + sample;
    }
  }

  /** What a channel adds to a mono frame is a float. */
  lemma ShareIsFloat(rounded: real -> real, sample: real, channels: nat)
    requires channels > 0 && IsRounding(rounded, F32_WHOLE)
    ensures rounded(Share(rounded, sample, channels)) == Share(rounded, sample, channels)
  {
    assert KeepsRounded(rounded, sample / channels as real);
  }

  /** A mono frame is a float, as every sum on the way to it was. */
  lemma MixIsFloat(rounded: real -> real, buffer: AudioBuffer, f: nat)
    requires WholeFrames(buffer) && f < |Mixed(rounded, buffer)| && IsRounding(rounded, F32_WHOLE)
    ensures rounded(Mixed(rounded, buffer)[f]) == Mixed(rounded, buffer)[f]
  {
    var interleaved, channels := buffer.interleaved, buffer.spec.channelCount;
    FrameFits(|interleaved| / channels, channels, f);
    assert |interleaved| / channels * channels == |interleaved|;
    var share := Share(rounded, interleaved[f * channels + channels - 1], channels);
    assert KeepsRounded(rounded, FrameSum(rounded, interleaved, channels, f * channels, channels - 1) + share);
  }

  /** Where nothing rounds, so many times a mono frame is the sum of that many channels, each counted once. */
  lemma MixIsTheMean(rounded: real -> real, buffer: AudioBuffer, f: nat)
    requires WholeFrames(buffer) && f < |Mixed(rounded, buffer)| && forall x :: rounded(x) == x
    requires f * buffer.spec.channelCount + buffer.spec.channelCount <= |buffer.interleaved|
    ensures buffer.spec.channelCount as real * Mixed(rounded, buffer)[f]
         == Total(buffer.interleaved, f * buffer.spec.channelCount, buffer.spec.channelCount)
  {
    SharesAddUp(rounded, buffer.interleaved, buffer.spec.channelCount, f * buffer.spec.channelCount,
                buffer.spec.channelCount);
  }
}
