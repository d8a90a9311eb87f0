/** From a stream's events to a signature: decode, resample, cut the middle, fingerprint, encode. */
module Pipeline {
  import opened Common
  import opened Signature
  import Fingerprint
  import FingerprintContents
  import FingerprintEncoding
  import Generator
  import Resampling
  import PacketDecoding
  import PacketReading
  import LittleEndian

  const DEFAULT_SEGMENT_SECONDS: u32 := 12

  /** The chunks of a stream, or why it does not decode. */
  type Decoded = Result<seq<seq<real>>, PacketDecoding.Error>

  /** The middle of a recording, or all of it; `usizeMax` is what the platform can count to. */
  function MiddleSegment<T>(samples: seq<T>, duration: Option<u32>, usizeMax: nat): (segment: seq<T>)
    requires |samples| <= usizeMax
  {
    var segmentSamples := Min(duration.GetOr(DEFAULT_SEGMENT_SECONDS) * Fingerprint.SAMPLE_RATE_HZ, usizeMax);
    if |samples| <= segmentSamples then samples
    else
      var middle, half := |samples| / 2, segmentSamples / 2;
      samples[middle - half..middle + half]
  }

  /**
    The segment is a stretch of the recording, as long as asked for or as there is, with the
    same margin either side but for an odd sample, which is left over at the end.
   */
  lemma SegmentIsCentred<T>(samples: seq<T>, duration: Option<u32>, usizeMax: nat) returns (start: nat)
    requires |samples| <= usizeMax
    ensures var segment := MiddleSegment(samples, duration, usizeMax);
            && |segment| == Min(|samples|, duration.GetOr(12) * 16000)
            && start + |segment| <= |samples| && segment == samples[start..start + |segment|]
            && |samples| - (start + |segment|) == start + if |segment| < |samples| then |samples| % 2 else 0
  {
    var segment := MiddleSegment(samples, duration, usizeMax);
    start := if |segment| < |samples| then |samples| / 2 - |segment| / 2 else 0;
  }

  /** The signature of a segment counts its samples: 16000 a second of what was asked for, or all there are. */
  lemma SegmentIsCounted(analysis: Fingerprint.Analysis, samples: seq<i16>, duration: Option<u32>, usizeMax: nat)
    requires analysis.Lawful() && |samples| <= usizeMax && duration.GetOr(12) * 16000 < 0x1_0000_0000
    ensures var signature := Fingerprint.FingerprintOf(analysis, MiddleSegment(samples, duration, usizeMax));
            && signature.sampleRateHz == 16000
            && signature.numberSamples == Min(|samples|, duration.GetOr(12) * 16000)
  {
    var start := SegmentIsCentred(samples, duration, usizeMax);
    FingerprintContents.SamplesAreCounted(analysis, MiddleSegment(samples, duration, usizeMax));
  }

  /** The whole 16 kHz stream, a packet of the source at a time. */
  method PcmSamples<D(!new), S(!new)>(decoder: PacketReading.MonoDecoder<D>, resampler: Resampling.Resampler<S>)
    returns (samples: Option<seq<i16>>)
    requires decoder.Valid() && resampler.Lawful()
    modifies decoder, decoder.packets
    ensures samples == Resampled(resampler, old(decoder.Remaining()))
  {
    var resampling := new Resampling.Resampling(resampler);
    AfterNothing(decoder.Remaining());
    ghost var pieces: seq<seq<real>> := [];
    while true
      invariant fresh(resampling) && resampling.resampler == resampler && resampling.Valid()
      invariant decoder.Valid() && resampling.received == Concat(pieces)
      invariant old(decoder.Remaining()) == After(pieces, decoder.Remaining())
      decreases decoder.Left()
    {
      var more, monoFrames := decoder.NextChunk();
      if more.Failure? {
        return None;
      }
      if !more.value {
        break;
      }
      var pushed := resampling.Push(monoFrames);
      AfterNext(pieces, monoFrames, decoder.Remaining());
      ConcatAppend(pieces, monoFrames);
      pieces := pieces + [monoFrames];
      if pushed.Failure? {
        RefusalStands(resampler, pieces, decoder.Remaining(), pushed.error);
        return None;
      }
    }
    AfterAll(pieces);
    var finished := resampling.Finish();
    if finished.Failure? {
      return None;
    }
    return Some(finished.value);
  }

  /** Chunks already taken, and what is to come of the rest. */
  function After(pieces: seq<seq<real>>, rest: Decoded): Decoded {
    match rest
    case Failure(error) => Failure(error)
    case Success(chunks) => Success(pieces + chunks)
  }

  lemma AfterNothing(rest: Decoded)
    ensures After([], rest) == rest
  {
    if rest.Success? {
      assert [] + rest.value == rest.value;
    }
  }

  lemma AfterAll(pieces: seq<seq<real>>)
    ensures After(pieces, Success([])) == Success(pieces)
  {
    assert pieces + [] == pieces;
  }

  lemma AfterNext(pieces: seq<seq<real>>, mono: seq<real>, rest: Decoded)
    ensures After(pieces, PacketDecoding.Prepended(mono, rest)) == After(pieces + [mono], rest)
  {
    if rest.Success? {
      assert pieces + ([mono] + rest.value) == pieces + [mono] + rest.value;
    }
  }

  /** The resampling of everything that decoded, if it all did. */
  ghost function Resampled<S(!new)>(resampler: Resampling.Resampler<S>, chunks: Decoded): Option<seq<i16>>
    requires resampler.Lawful()
  {
    if chunks.Failure? then None
    else
      match Resampling.WholeClip(resampler, Concat(chunks.value))
      case Failure(_) => None
      case Success(samples) => Some(samples)
  }

  lemma RefusalStands<S(!new)>(resampler: Resampling.Resampler<S>, pieces: seq<seq<real>>,
                               rest: Decoded, error: Resampling.Error)
    requires resampler.Lawful()
    requires Resampling.AfterChunks(resampler, Concat(pieces), Resampling.FullChunks(|Concat(pieces)|))
          == Resampling.Broken(error)
    ensures Resampled(resampler, After(pieces, rest)) == None
  {
    if rest.Success? {
      var all := pieces + rest.value;
      assert all[..|pieces|] == pieces;
      Resampling.RefusedAtPiece(resampler, all, |pieces|, error);
    }
  }

  /** The resamplers there are, by source rate; a rate may be refused. */
  type Resamplers<!S(!new)> = nat -> Result<Resampling.Resampler<S>, Resampling.Error>

  ghost predicate AllLawful<S(!new)>(resamplers: Resamplers<S>) {
    forall rate | resamplers(rate).Success? :: resamplers(rate).value.Lawful()
  }

  /** The 16 kHz recording a stream comes to, if it decodes and resamples. */
  ghost function Recording<D(!new), S(!new)>(registry: PacketDecoding.Registry<D>, tracks: seq<PacketDecoding.Track>,
                                             events: seq<PacketDecoding.Event>, resamplers: Resamplers<S>)
    : Option<seq<i16>>
    requires registry.Lawful() && AllLawful(resamplers)
  {
    var chunks := PacketReading.StreamFrom(registry, tracks, events);
    if chunks.Failure? then None
    else
      match resamplers(PacketReading.OpeningSpec(registry, tracks, events).rate)
      case Failure(_) => None
      case Success(resampler) => Resampled(resampler, chunks)
  }

  /** A recording is what the resampler of the stream's own rate makes of all its chunks. */
  lemma RecordingIsOfItsRate<D(!new), S(!new)>(registry: PacketDecoding.Registry<D>, tracks: seq<PacketDecoding.Track>,
                                               events: seq<PacketDecoding.Event>, resamplers: Resamplers<S>)
    requires registry.Lawful() && AllLawful(resamplers)
    requires Recording(registry, tracks, events, resamplers).Some?
    ensures var chunks := PacketReading.StreamFrom(registry, tracks, events);
            && chunks.Success?
            && var resampler := resamplers(PacketReading.OpeningSpec(registry, tracks, events).rate);
            && resampler.Success?
            && Resampling.WholeClip(resampler.value, Concat(chunks.value))
                 == Success(Recording(registry, tracks, events, resamplers).value)
  {
  }

  /** The signature of a stream: the fingerprint of the middle of its recording. */
  method MakeSignature<D(!new), S(!new)>(registry: PacketDecoding.Registry<D>, tracks: seq<PacketDecoding.Track>,
                                         events: seq<PacketDecoding.Event>, resamplers: Resamplers<S>,
                                         analysis: Fingerprint.Analysis, duration: Option<u32>, usizeMax: nat)
    returns (signature: Option<DecodedSignature>)
    requires registry.Lawful() && AllLawful(resamplers) && analysis.Lawful()
    requires Recording(registry, tracks, events, resamplers).Some? ==>
               |Recording(registry, tracks, events, resamplers).value| <= usizeMax
    ensures signature == match Recording(registry, tracks, events, resamplers)
                         case None => None
                         case Some(samples) =>
                           Some(Fingerprint.FingerprintOf(analysis, MiddleSegment(samples, duration, usizeMax)))
  {
    var decoder := PacketReading.Open(registry, tracks, events);
    if decoder.Failure? {
      return None;
    }
    var resampler := resamplers(decoder.value.spec.rate);
    if resampler.Failure? {
      return None;
    }
    var samples := PcmSamples(decoder.value, resampler.value);
    if samples.None? {
      return None;
    }
    var made := Generator.MakeSignatureFromBuffer(analysis, MiddleSegment(samples.value, duration, usizeMax));
    return Some(made);
  }

  /** Whatever is recorded, the signature of a segment of up to twenty hours encodes and reads back whole. */
  lemma SegmentsRoundTrip(analysis: Fingerprint.Analysis, samples: seq<i16>, duration: Option<u32>, usizeMax: nat,
                          crc32: LittleEndian.Bytes -> u32)
    requires analysis.Lawful() && |samples| <= usizeMax && duration.GetOr(DEFAULT_SEGMENT_SECONDS) <= 20 * 3600
    ensures var segment := MiddleSegment(samples, duration, usizeMax);
            FingerprintEncoding.RoundTrips(crc32, Fingerprint.FingerprintOf(analysis, segment))
  {
    var start := SegmentIsCentred(samples, duration, usizeMax);
    FingerprintEncoding.FingerprintsRoundTrip(analysis, MiddleSegment(samples, duration, usizeMax), crc32);
  }
}
