/** `PacketDecoder` and `MonoDecoder`: the loops that read a stream packet by packet. */
module PacketReading {
  import opened Common
  import opened PacketDecoding
  import opened Rounding

  lemma LinkContinues(packets: seq<Packet>, tail: seq<Event>)
    requires packets != []
    ensures var events := Reads(packets) + tail;
            events != [] && events[0] == PacketRead(packets[0]) && events[1..] == Reads(packets[1..]) + tail
    ensures Reads(packets)[0] == PacketRead(packets[0]) && Reads(packets)[1..] == Reads(packets[1..])
  {
  }

  /** A chained stream is the audio of its links, one after another, each under its own decoder. */
  lemma {:induction false} LinksFollowOneAnother<D(!new)>(registry: Registry<D>, current: TrackDecoder<D>,
                                                          packets: seq<Packet>, tracks: seq<Track>,
                                                          next: TrackDecoder<D>, rest: seq<Event>)
    requires registry.Lawful() && DecoderFor(registry, tracks) == Success(next)
    ensures var link := Transcribed(registry, current, Reads(packets));
            var whole := Transcribed(registry, current, Reads(packets) + ([ResetRequired(tracks)] + rest));
            && whole.items == link.items + Transcribed(registry, next, rest).items
            && whole.ending == Transcribed(registry, next, rest).ending
            && |link.items| == |packets|
    decreases |packets|
  {
    var tail := [ResetRequired(tracks)] + rest;
    if packets == [] {
      assert Reads(packets) + tail == tail && tail[1..] == rest;
    } else {
      LinkContinues(packets, tail);
      var after := if packets[0].trackId != current.trackId then current
                   else current.(decoder := registry.decode(current.decoder, packets[0]).next);
      LinksFollowOneAnother(registry, after, packets[1..], tracks, next, rest);
    }
  }

  const CUT := ReadError(IoError(UnexpectedEof))

  lemma CutContinues(front: seq<Event>, back: seq<Event>)
    requires front != []
    ensures (front + back)[0] == front[0] && (front + back)[1..] == front[1..] + back
  {
  }

  /** What becomes of the packets before a cut is what becomes of them in the whole, and the cut is an end. */
  lemma {:induction false} CutItems<D(!new)>(registry: Registry<D>, current: TrackDecoder<D>, front: seq<Event>,
                                             back: seq<Event>)
    requires registry.Lawful()
    ensures IsCutOf(Transcribed(registry, current, front + [CUT]), Transcribed(registry, current, front + back))
    decreases |front|
  {
    if front == [] {
      assert front + [CUT] == [CUT] && front + back == back;
    } else {
      CutContinues(front, [CUT]);
      CutContinues(front, back);
      match front[0]
      case PacketRead(packet) =>
        var after := if packet.trackId != current.trackId then current
                     else current.(decoder := registry.decode(current.decoder, packet).next);
        CutItems(registry, after, front[1..], back);
      case ResetRequired(tracks) =>
        var next := DecoderFor(registry, tracks);
        if next.Success? {
          CutItems(registry, next.value, front[1..], back);
        }
      case StreamEnd =>
      case ReadError(_) =>
    }
  }

  /** A prefix of a transcript that ends without an error, unless it is all of it. */
  predicate IsCutOf(cut: Transcript, whole: Transcript) {
    cut.items <= whole.items && (cut.ending.Ended? || cut == whole)
  }

  lemma CutDecodes(cut: Transcript, whole: Transcript, spec: AudioSpec)
    requires IsCutOf(cut, whole) && DecodesUnder(whole, spec)
    ensures DecodesUnder(cut, spec)
  {
  }

  lemma {:induction false} ChunksOfCut(cut: seq<Item>, whole: seq<Item>)
    requires cut <= whole
    ensures Chunks(cut) <= Chunks(whole)
  {
    if cut != [] {
      ChunksOfCut(cut[1..], whole[1..]);
    }
  }

  lemma {:induction false} SilentStream(transcript: Transcript, spec: AudioSpec)
    requires DecodesUnder(transcript, spec) && !HasAudio(transcript)
    ensures StreamOf(transcript) == Failure(NO_AUDIO)
    decreases |transcript.items|
  {
    if transcript.items != [] {
      assert !transcript.items[0].Heard?;
      AudioIsInTheRest(transcript);
      DecodesStep(transcript, spec);
      SilentStream(Rest(transcript), spec);
    }
  }

  /**
    A stream that decodes whole gives, cut short anywhere, the chunks read up to there, or is
    refused for having no audio yet.
   */
  lemma CutShortIsAPrefix<D(!new)>(registry: Registry<D>, tracks: seq<Track>, front: seq<Event>, back: seq<Event>)
    requires registry.Lawful() && StreamFrom(registry, tracks, front + back).Success?
    ensures match StreamFrom(registry, tracks, front + [CUT])
            case Success(chunks) => chunks <= StreamFrom(registry, tracks, front + back).value
            case Failure(error) => error == NO_AUDIO
  {
    var current := DecoderFor(registry, tracks).value;
    var cut, whole := Transcribed(registry, current, front + [CUT]), Transcribed(registry, current, front + back);
    CutItems(registry, current, front, back);
    StreamIffDecodes(whole);
    StreamIffDecodes(cut);
    var spec :| DecodesUnder(whole, spec);
    CutDecodes(cut, whole, spec);
    if HasAudio(cut) {
      ChunksOfCut(cut.items, whole.items);
    } else {
      SilentStream(cut, spec);
    }
  }

  lemma Product(x: nat, y: nat, factor: nat)
    requires x <= y
    ensures x * factor <= y * factor
  {
    assert (y - x) * factor >= 0;
  }

  lemma SampleIsInFrame(index: nat, channels: nat, frames: nat)
    requires channels > 0 && index < frames * channels
    ensures index / channels < frames
  {
    if frames <= index / channels {
      Product(frames, index / channels, channels);
    }
  }

  /** How many of a frame's channels are among the first so many samples. */
  function Counted(index: nat, channels: nat, f: nat): nat
    requires channels > 0
  {
    if index <= f * channels then 0 else if index >= f * channels + channels then channels else index - f * channels
  }

  lemma CountedNext(index: nat, channels: nat, f: nat)
    requires channels > 0
    ensures Counted(index + 1, channels, f) == Counted(index, channels, f) + if f == index / channels then 1 else 0
    ensures f == index / channels ==> f * channels + Counted(index, channels, f) == index
  {
    var q := index / channels;
    assert q * channels <= index < q * channels + channels;
    FramesAreApart(f, q, channels);
    FramesAreApart(q, f, channels);
  }

  lemma FramesAreApart(f: nat, g: nat, channels: nat)
    requires channels > 0
    ensures f < g ==> f * channels + channels <= g * channels
  {
    if f < g {
      Product(f + 1, g, channels);
    }
  }

  /** A frame's sum over those of its samples that are among the first so many. */
  function SumSoFar(rounded: real -> real, interleaved: seq<real>, channels: nat, f: nat, index: nat): real
    requires channels > 0
  {
    if f * channels + Counted(index, channels, f) <= |interleaved|
    then FrameSum(rounded, interleaved, channels, f * channels, Counted(index, channels, f))
    else 0.0
  }

  lemma SumNext(rounded: real -> real, interleaved: seq<real>, channels: nat, f: nat, index: nat)
    requires channels > 0 && f * channels + channels <= |interleaved| && index < |interleaved|
    ensures SumSoFar(rounded, interleaved, channels, f, index + 1)
         == var sum := SumSoFar(rounded, interleaved, channels, f, index);
            if f == index / channels then rounded(sum + Share(rounded, interleaved[index], channels)) else sum
  {
    CountedNext(index, channels, f);
  }

  lemma SumEnds(rounded: real -> real, interleaved: seq<real>, channels: nat, f: nat)
    requires channels > 0 && f * channels + channels <= |interleaved|
    ensures SumSoFar(rounded, interleaved, channels, f, 0) == 0.0
    ensures SumSoFar(rounded, interleaved, channels, f, |interleaved|)
         == FrameSum(rounded, interleaved, channels, f * channels, channels)
  {
  }

  /** Each frame holds its sum over the first so many samples. */
  ghost predicate SumsHold(rounded: real -> real, mono: seq<real>, interleaved: seq<real>, channels: nat, index: nat)
    requires channels > 0
  {
    && |mono| * channels == |interleaved|
    && forall f | 0 <= f < |mono| :: mono[f] == SumSoFar(rounded, interleaved, channels, f, index)
  }

  lemma SumsAdvance(rounded: real -> real, mono: seq<real>, interleaved: seq<real>, channels: nat, index: nat)
    requires channels > 0 && index < |interleaved| && SumsHold(rounded, mono, interleaved, channels, index)
    ensures index / channels < |mono|
    ensures var at := index / channels;
            var next := mono[at := rounded(mono[at] + Share(rounded, interleaved[index], channels))];
            SumsHold(rounded, next, interleaved, channels, index + 1)
  {
    SampleIsInFrame(index, channels, |mono|);
    var at := index / channels;
    var next := mono[at := rounded(mono[at] + Share(rounded, interleaved[index], channels))];
    forall f | 0 <= f < |mono| ensures next[f] == SumSoFar(rounded, interleaved, channels, f, index + 1) {
      FrameFits(|mono|, channels, f);
      SumNext(rounded, interleaved, channels, f, index);
    }
  }

  lemma SumsStartAtZero(rounded: real -> real, mono: seq<real>, interleaved: seq<real>, channels: nat)
    requires channels > 0 && |mono| * channels == |interleaved|
    requires forall f | 0 <= f < |mono| :: mono[f] == 0.0
    ensures SumsHold(rounded, mono, interleaved, channels, 0)
  {
    forall f | 0 <= f < |mono| ensures mono[f] == SumSoFar(rounded, interleaved, channels, f, 0) {
      FrameFits(|mono|, channels, f);
      SumEnds(rounded, interleaved, channels, f);
    }
  }

  lemma SumsEndMixed(rounded: real -> real, mono: seq<real>, buffer: AudioBuffer)
    requires WholeFrames(buffer)
    requires SumsHold(rounded, mono, buffer.interleaved, buffer.spec.channelCount, |buffer.interleaved|)
    ensures mono == Mixed(rounded, buffer)
  {
    forall f | 0 <= f < |mono| ensures mono[f] == Mixed(rounded, buffer)[f] {
      FrameFits(|mono|, buffer.spec.channelCount, f);
      SumEnds(rounded, buffer.interleaved, buffer.spec.channelCount, f);
    }
  }

  /** Averages the channels of each frame, a sample at a time. */
  method MixDown(rounded: real -> real, buffer: AudioBuffer) returns (mono: seq<real>)
    requires WholeFrames(buffer)
    ensures mono == Mixed(rounded, buffer)
  {
    var interleaved, channels := buffer.interleaved, buffer.spec.channelCount;
    var frames := |interleaved| / channels;
    assert frames * channels == |interleaved|;
    mono := seq(frames, f => 0.0);
    SumsStartAtZero(rounded, mono, interleaved, channels);
    for index := 0 to |interleaved|
      invariant SumsHold(rounded, mono, interleaved, channels, index)
    {
      SumsAdvance(rounded, mono, interleaved, channels, index);
      mono := mono[index / channels := rounded(mono[index / channels] + Share(rounded, interleaved[index], channels))];
    }
    SumsEndMixed(rounded, mono, buffer);
  }

  /** So many times a share. */
  function Multiple(share: real, count: nat): real {
    count as real * share
  }

  /** Adding up so many equal shares takes no rounding. */
  ghost predicate AddUpExactly(rounded: real -> real, share: real, count: nat) {
    forall k: nat | k <= count :: rounded(Multiple(share, k)) == Multiple(share, k)
  }

  /** Equal samples over a stretch. */
  ghost predicate AllEqual(samples: seq<real>, start: nat, count: nat, v: real)
    requires start + count <= |samples|
  {
    forall i | start <= i < start + count :: samples[i] == v
  }

  lemma {:induction false} SumOfEqualChannels(rounded: real -> real, interleaved: seq<real>, channels: nat,
                                              start: nat, count: nat, v: real)
    requires channels > 0 && count <= channels && start + count <= |interleaved|
    requires AllEqual(interleaved, start, count, v) && AddUpExactly(rounded, v / channels as real, channels)
    ensures FrameSum(rounded, interleaved, channels, start, count) == Multiple(v / channels as real, count)
  {
    if count > 0 {
      SumOfEqualChannels(rounded, interleaved, channels, start, count - 1, v);
      var share := v / channels as real;
      assert rounded(Multiple(share, 1)) == Multiple(share, 1) && Multiple(share, 1) == share;
      assert rounded(Multiple(share, count)) == Multiple(share, count);
      assert Multiple(share, count - 1) + share == Multiple(share, count);
    }
  }

  /** Channels that carry the same signal mix down to it, where their shares add up exactly. */
  lemma EqualChannelsMixToThemselves(rounded: real -> real, buffer: AudioBuffer, f: nat, v: real)
    requires WholeFrames(buffer) && f < |Mixed(rounded, buffer)|
    requires f * buffer.spec.channelCount + buffer.spec.channelCount <= |buffer.interleaved|
    requires AllEqual(buffer.interleaved, f * buffer.spec.channelCount, buffer.spec.channelCount, v)
    requires AddUpExactly(rounded, v / buffer.spec.channelCount as real, buffer.spec.channelCount)
    ensures Mixed(rounded, buffer)[f] == v
  {
    var channels := buffer.spec.channelCount;
    SumOfEqualChannels(rounded, buffer.interleaved, channels, f * channels, channels, v);
    assert channels as real * (v / channels as real) == v;
  }

  /** One channel's or two's always do, if the share is itself a float. */
  lemma OneOrTwoAddUp(rounded: real -> real, share: real, channels: nat)
    requires IsRounding(rounded, F32_WHOLE) && rounded(share) == share && channels <= 2
    ensures AddUpExactly(rounded, share, channels)
  {
    assert KeepsWhole(rounded, F32_WHOLE, 0.0) && KeepsRounded(rounded, share);
    assert Multiple(share, 0) == 0.0 && Multiple(share, 1) == share && Multiple(share, 2) == 2.0 * share;
  }

  class PacketDecoder<D(!new)> {
    const registry: Registry<D>
    var unread: seq<Event>
    var trackDecoder: TrackDecoder<D>
    var interleavedSamples: seq<real>

    /** What is left of the stream. */
    ghost function Future(): Transcript
      requires registry.Lawful()
      reads this
    {
      Transcribed(registry, trackDecoder, unread)
    }

    constructor (registry: Registry<D>, trackDecoder: TrackDecoder<D>, events: seq<Event>)
      requires registry.Lawful()
      ensures this.registry == registry && Future() == Transcribed(registry, trackDecoder, events)
    {
      this.registry, this.trackDecoder, unread, interleavedSamples := registry, trackDecoder, events, [];
    }

    /** What the reader hands over next; once it has handed over everything, the end. */
    method Read() returns (event: Event)
      modifies `unread
      ensures old(unread) == [] ==> event == StreamEnd && unread == []
      ensures old(unread) != [] ==> event == old(unread)[0] && unread == old(unread)[1..]
    {
      if unread == [] {
        return StreamEnd;
      }
      event := unread[0];
      unread := unread[1..];
    }

    /** The next packet of any track, the decoder replaced at every reset on the way to it. */
    method NextPacket() returns (r: Result<Option<Packet>, Error>)
      requires registry.Lawful()
      modifies `unread, `trackDecoder
      ensures match r
              case Failure(error) => old(Future()) == Transcript([], Stopped(error))
              case Success(None) => old(Future()) == Transcript([], Ended)
              case Success(Some(packet)) =>
                && old(Future()) == Transcribed(registry, trackDecoder, [PacketRead(packet)] + unread)
                && |unread| < |old(unread)|
    {
      while true
        invariant Future() == old(Future()) && |unread| <= |old(unread)|
        decreases |unread|
      {
        label before:
        var event := Read();
        match event
        case PacketRead(packet) =>
          assert old@before(unread) == [event] + unread;
          return Success(Some(packet));
        case StreamEnd =>
          return Success(None);
        case ReadError(error) =>
          if IsUnexpectedEof(error) {
            return Success(None);
          }
          return Failure(error);
        case ResetRequired(tracks) =>
          var next := DecoderFor(registry, tracks);
          if next.Failure? {
            return Failure(next.error);
          }
          trackDecoder := next.value;
      }
    }

    /** A refused packet ends the stream if it was refused with an I/O error and nothing follows it. */
    method EndOfStreamOr(error: Error) returns (r: Result<Option<AudioSpec>, Error>)
      requires registry.Lawful()
      modifies `unread, `trackDecoder
      ensures r == if error.IoError? && old(Future()).items == []
                   then (match old(Future()).ending case Ended => Success(None) case Stopped(e) => Failure(e))
                   else Failure(error)
    {
      if error.IoError? {
        var packet := NextPacket();
        if packet.Failure? {
          return Failure(packet.error);
        }
        if packet.value.None? {
          return Success(None);
        }
      }
      return Failure(error);
    }

    /** The next packet of the track, mixed down, and the spec it decoded under. */
    method Next() returns (r: Result<Option<AudioSpec>, Error>, monoFrames: seq<real>)
      requires registry.Lawful()
      modifies this
      ensures match NextOf(old(Future()))
              case Finished => r == Success(None)
              case Failed(error) => r == Failure(error)
              case NextChunk(spec, mono, rest) =>
                r == Success(Some(spec)) && monoFrames == mono && Future() == rest && |unread| < |old(unread)|
    {
      monoFrames := [];
      while true
        invariant NextOf(Future()) == NextOf(old(Future())) && |unread| <= |old(unread)|
        decreases |unread|
      {
        ghost var future := Future();
        var packet := NextPacket();
        if packet.Failure? {
          return Failure(packet.error), monoFrames;
        }
        if packet.value.None? {
          return Success(None), monoFrames;
        }
        assert ([PacketRead(packet.value.value)] + unread)[1..] == unread;
        if packet.value.value.trackId == trackDecoder.trackId {
          var decoding := registry.decode(trackDecoder.decoder, packet.value.value);
          trackDecoder := trackDecoder.(decoder := decoding.next);
          assert future.items[0] == ItemOf(registry.rounded, decoding.result) && Rest(future) == Future();
          if decoding.result.Failure? {
            r := EndOfStreamOr(decoding.result.error);
            return r, monoFrames;
          }
          interleavedSamples := decoding.result.value.interleaved;
          monoFrames := MixDown(registry.rounded, decoding.result.value);
          return Success(Some(decoding.result.value.spec)), monoFrames;
        }
        assert future.items[0] == Foreign && Rest(future) == Future();
      }
    }
  }

  class MonoDecoder<D(!new)> {
    const packets: PacketDecoder<D>
    const spec: AudioSpec
    var firstChunk: Option<seq<real>>

    ghost predicate Valid()
      reads packets
    {
      packets.registry.Lawful()
    }

    /** The chunks still to come. */
    ghost function Remaining(): Result<seq<seq<real>>, Error>
      requires Valid()
      reads this, packets
    {
      match firstChunk
      case Some(chunk) => Prepended(chunk, ChunksUnder(packets.Future(), spec))
      case None => ChunksUnder(packets.Future(), spec)
    }

    constructor (packets: PacketDecoder<D>, spec: AudioSpec, firstChunk: seq<real>)
      requires packets.registry.Lawful()
      ensures this.packets == packets && this.spec == spec && Valid()
      ensures Remaining() == Prepended(firstChunk, ChunksUnder(packets.Future(), spec))
    {
      this.packets, this.spec, this.firstChunk := packets, spec, Some(firstChunk);
    }

    /** How much there is left to read. */
    ghost function Left(): nat
      reads this, packets
    {
      |packets.unread| + if firstChunk.Some? then 1 else 0
    }

    /** Moves one chunk from the front of `Remaining()` to the caller, or finds it empty or failed. */
    method NextChunk() returns (r: Result<bool, Error>, monoFrames: seq<real>)
      requires Valid()
      modifies this, packets
      ensures match r
              case Failure(error) => old(Remaining()) == Failure(error)
              case Success(more) =>
                if more then old(Remaining()) == Prepended(monoFrames, Remaining()) && Left() < old(Left())
                else old(Remaining()) == Success([])
    {
      if firstChunk.Some? {
        monoFrames := firstChunk.value;
        firstChunk := None;
        return Success(true), monoFrames;
      }
      var next;
      next, monoFrames := packets.Next();
      if next.Failure? {
        return Failure(next.error), monoFrames;
      }
      if next.value.None? {
        return Success(false), monoFrames;
      }
      if next.value.value != spec {
        return Failure(FORMAT_CHANGES), monoFrames;
      }
      return Success(true), monoFrames;
    }
  }

  /** Everything a stream comes to: the track the reader opens on, and the transcript of its events. */
  ghost function StreamFrom<D(!new)>(registry: Registry<D>, tracks: seq<Track>, events: seq<Event>)
    : Result<seq<seq<real>>, Error>
    requires registry.Lawful()
  {
    match DecoderFor(registry, tracks)
    case Failure(error) => Failure(error)
    case Success(trackDecoder) => StreamOf(Transcribed(registry, trackDecoder, events))
  }

  /** The spec a stream opens under: that of its first chunk. */
  ghost function OpeningSpec<D(!new)>(registry: Registry<D>, tracks: seq<Track>, events: seq<Event>): AudioSpec
    requires registry.Lawful() && StreamFrom(registry, tracks, events).Success?
  {
    NextOf(Transcribed(registry, DecoderFor(registry, tracks).value, events)).spec
  }

  /** Opens a stream on its first chunk, whose spec is that of the whole. */
  method Open<D(!new)>(registry: Registry<D>, tracks: seq<Track>, events: seq<Event>)
    returns (r: Result<MonoDecoder<D>, Error>)
    requires registry.Lawful()
    ensures match r
            case Failure(error) => StreamFrom(registry, tracks, events) == Failure(error)
            case Success(decoder) =>
              && fresh(decoder) && fresh(decoder.packets) && decoder.Valid()
              && decoder.Remaining() == StreamFrom(registry, tracks, events)
              && (decoder.Remaining().Success? ==> decoder.spec == OpeningSpec(registry, tracks, events))
  {
    var trackDecoder := DecoderFor(registry, tracks);
    if trackDecoder.Failure? {
      return Failure(trackDecoder.error);
    }
    var packets := new PacketDecoder(registry, trackDecoder.value, events);
    var spec, firstChunk := packets.Next();
    if spec.Failure? {
      return Failure(spec.error);
    }
    if spec.value.None? {
      return Failure(NO_AUDIO);
    }
    var decoder := new MonoDecoder(packets, spec.value.value, firstChunk);
    return Success(decoder);
  }
}
