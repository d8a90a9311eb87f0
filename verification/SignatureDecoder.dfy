/** A reader of the binary signature, and what the encoder's output means to it. */
module SignatureDecoder {
  import opened Common
  import opened LittleEndian
  import opened Signature
  import opened SignatureFormat

  /** The peaks of one payload, the pass of the peak before it being known. */
  function ReadRecords(last: nat, data: Bytes): Option<seq<FrequencyPeak>>
    decreases |data|
  {
    if |data| == 0 then Some([])
    else if |data| < 5 then None
    else if data[0] == ESCAPE then ReadRecords(ReadLe32(data, 1), data[5..])
    else
      var peak := FrequencyPeak(last + data[0] as int, ReadLe16(data, 1), ReadLe16(data, 3));
      match ReadRecords(peak.pass, data[5..])
      case None => None
      case Some(rest) => Some([peak] + rest)
  }

  function BandOfMarker(marker: u32): Option<FrequencyBand> {
    if marker == BAND_MARKER then Some(Band250To520)
    else if marker == BAND_MARKER + 1 then Some(Band520To1450)
    else if marker == BAND_MARKER + 2 then Some(Band1450To3500)
    else if marker == BAND_MARKER + 3 then Some(Band3500To5500)
    else None
  }

  /** Where the next band starts, by the length in the second word. */
  function EndOfBand(data: Bytes): nat
    requires |data| >= 8
  {
    var length := ReadLe32(data, 4);
    8 + length + PaddingLength(length)
  }

  /** The list of the band that data starts with, added to those of the bands behind it. */
  function WithBand(data: Bytes, others: Option<PeakMap>): Option<PeakMap>
    requires |data| >= 8 && EndOfBand(data) <= |data|
  {
    match (BandOfMarker(ReadLe32(data, 0)), ReadRecords(0, data[8..8 + ReadLe32(data, 4)]), others)
    case (Some(band), Some(peaks), Some(rest)) => Some(rest[band := peaks])
    case _ => None
  }

  function ReadBands(data: Bytes): Option<PeakMap>
    decreases |data|
  {
    if |data| == 0 then Some(map[])
    else if |data| < 8 || EndOfBand(data) > |data| then None
    else WithBand(data, ReadBands(data[EndOfBand(data)..]))
  }

  function RateOfId(shifted: u32): Option<u32> {
    if shifted == 1 * 0x800_0000 then Some(8000)
    else if shifted == 2 * 0x800_0000 then Some(11025)
    else if shifted == 3 * 0x800_0000 then Some(16000)
    else if shifted == 4 * 0x800_0000 then Some(32000)
    else if shifted == 5 * 0x800_0000 then Some(44100)
    else if shifted == 6 * 0x800_0000 then Some(48000)
    else None
  }

  function Word(b: Bytes, i: nat): u32
    requires 4 * i + 4 <= |b|
  {
    ReadLe32(b, 4 * i)
  }

  /** The words that are the same in every signature. */
  predicate HasConstants(bytes: Bytes)
    requires |bytes| >= 4 * WORD_COUNT
  {
    && Word(bytes, 0) == MAGIC_1 && Word(bytes, 3) == MAGIC_2
    && Word(bytes, 4) == Word(bytes, 5) == Word(bytes, 6) == Word(bytes, 8) == Word(bytes, 9) == 0
    && Word(bytes, 11) == FIXED_VALUE && Word(bytes, 12) == BODY_MARKER
  }

  /** What every signature carries: the constants, its own length twice, and its checksum. */
  predicate WellSealed(crc32: Bytes -> u32, bytes: Bytes) {
    && |bytes| >= 4 * WORD_COUNT
    && HasConstants(bytes)
    && Word(bytes, CRC_WORD) == crc32(bytes[8..])
    && Word(bytes, SIZE_WORD) == |bytes| - HEADER_LENGTH
    && Word(bytes, BODY_SIZE_WORD) == |bytes| - HEADER_LENGTH
  }

  /** The signature the rate, the sample count and the bands make up. */
  function Interpreted(shiftedRateId: u32, numberSamples: u32, soundPeaks: Option<PeakMap>)
    : Option<DecodedSignature>
  {
    match (RateOfId(shiftedRateId), soundPeaks)
    case (Some(rate), Some(peaks)) =>
      if numberSamples < ExtraSamples(rate) then None
      else Some(DecodedSignature(rate, numberSamples - ExtraSamples(rate), peaks))
    case _ => None
  }

  function Decode(crc32: Bytes -> u32, bytes: Bytes): Option<DecodedSignature> {
    if WellSealed(crc32, bytes)
    then Interpreted(Word(bytes, RATE_WORD), Word(bytes, SAMPLES_WORD), ReadBands(bytes[4 * WORD_COUNT..]))
    else None
  }

  // ---------------------------------------------------------------------------------------
  // Peaks
  // ---------------------------------------------------------------------------------------

  lemma FourBytesAreRead(front: Bytes, word: Bytes, back: Bytes)
    requires |word| == 4
    ensures ReadLe32(front + word + back, |front|) == ReadLe32(word, 0)
  {
    var b := front + word + back;
    assert b[|front|] == word[0] && b[|front| + 1] == word[1] && b[|front| + 2] == word[2] && b[|front| + 3] == word[3];
  }

  function Prepended(peak: FrequencyPeak, rest: Option<seq<FrequencyPeak>>): Option<seq<FrequencyPeak>> {
    match rest
    case None => None
    case Some(peaks) => Some([peak] + peaks)
  }

  /** Five bytes that do not start with the escape are a peak. */
  lemma PeakIsRead(last: nat, delta: u8, coordinates: Bytes, rest: Bytes)
    requires delta != ESCAPE && |coordinates| == 4
    ensures var peak := FrequencyPeak(last + delta as int, ReadLe16(coordinates, 0), ReadLe16(coordinates, 2));
            ReadRecords(last, [delta] + coordinates + rest) == Prepended(peak, ReadRecords(peak.pass, rest))
  {
    var data := [delta] + coordinates + rest;
    assert data[1] == coordinates[0] && data[2] == coordinates[1];
    assert data[3] == coordinates[2] && data[4] == coordinates[3];
    assert data[5..] == rest;
  }

  /** Five bytes that do are the pass to go on from. */
  lemma EscapeIsRead(last: nat, word: Bytes, after: Bytes)
    requires |word| == 4
    ensures ReadRecords(last, [ESCAPE] + word + after) == ReadRecords(ReadLe32(word, 0), after)
  {
    var data := [ESCAPE] + word + after;
    FourBytesAreRead([ESCAPE], word, after);
    assert data[5..] == after;
  }

  /** Bytes that a reader takes for one peak after a peak of pass `last`, whatever follows. */
  ghost predicate ReadsAsPeak(bytes: Bytes, last: nat, peak: FrequencyPeak) {
    forall rest :: ReadRecords(last, bytes + rest) == Prepended(peak, ReadRecords(peak.pass, rest))
  }

  ghost predicate AreCoordinates(bytes: Bytes, peak: FrequencyPeak) {
    |bytes| == 4 && ReadLe16(bytes, 0) == peak.magnitude && ReadLe16(bytes, 2) == peak.bin
  }

  lemma CoordinatesAreRead(peak: FrequencyPeak)
    ensures AreCoordinates(Coordinates(peak), peak)
  {
    Le16IsWhole(peak.magnitude);
    Le16IsWhole(peak.bin);
  }

  /** A delta of less than 255 is never taken for the escape. */
  lemma DeltaIsRead(bytes: Bytes, delta: u8, coordinates: Bytes, last: nat, peak: FrequencyPeak)
    requires bytes == [delta] + coordinates && AreCoordinates(coordinates, peak)
    requires delta != ESCAPE && peak.pass == last + delta as int
    ensures ReadsAsPeak(bytes, last, peak)
  {
    forall rest ensures ReadRecords(last, bytes + rest) == Prepended(peak, ReadRecords(peak.pass, rest)) {
      PeakIsRead(last, delta, coordinates, rest);
    }
  }

  lemma FramedIsJoined(marker: Bytes, length: Bytes, payload: Bytes, padding: Bytes, rest: Bytes)
    ensures marker + length + payload + padding + rest == marker + length + (payload + padding + rest)
  {
  }

  /** A gap of 255 or more, written whole: the delta behind the escape is zero. */
  lemma EscapedIsRead(bytes: Bytes, word: Bytes, coordinates: Bytes, last: nat, peak: FrequencyPeak)
    requires bytes == [ESCAPE] + word + [0] + coordinates && AreCoordinates(coordinates, peak)
    requires |word| == 4 && ReadLe32(word, 0) == peak.pass
    ensures ReadsAsPeak(bytes, last, peak)
  {
    forall rest ensures ReadRecords(last, bytes + rest) == Prepended(peak, ReadRecords(peak.pass, rest)) {
      FramedIsJoined([ESCAPE], word, [0], coordinates, rest);
      EscapeIsRead(last, word, [0] + coordinates + rest);
      PeakIsRead(peak.pass, 0, coordinates, rest);
    }
  }

  lemma RecordIsRead(last: nat, peak: FrequencyPeak)
    requires last <= peak.pass < U32_LIMIT
    ensures ReadsAsPeak(Record(last, peak), last, peak)
  {
    CoordinatesAreRead(peak);
    if peak.pass - last >= ESCAPED_GAP {
      Le32IsWhole(peak.pass);
      EscapedIsRead(Record(last, peak), Le32(peak.pass), Coordinates(peak), last, peak);
    } else {
      DeltaIsRead(Record(last, peak), (peak.pass - last) as u8, Coordinates(peak), last, peak);
    }
  }

  predicate PassesFit(peaks: seq<FrequencyPeak>) {
    forall i | 0 <= i < |peaks| :: peaks[i].pass < U32_LIMIT
  }

  /** Every list of peaks in ascending pass comes back whole from its delta coding. */
  lemma {:induction false} PeaksRoundTrip(last: nat, peaks: seq<FrequencyPeak>)
    requires PassesAscend(peaks) && PassesFit(peaks)
    requires peaks != [] ==> last <= peaks[0].pass
    ensures ReadRecords(last, Records(last, peaks)) == Some(peaks)
    decreases |peaks|
  {
    if peaks != [] {
      RecordIsRead(last, peaks[0]);
      PeaksRoundTrip(peaks[0].pass, peaks[1..]);
      assert [peaks[0]] + peaks[1..] == peaks;
    }
  }

  /** How many gaps are escaped. */
  function Escapes(last: nat, peaks: seq<FrequencyPeak>): nat
    decreases |peaks|
  {
    if peaks == [] then 0
    else (if peaks[0].pass - last >= ESCAPED_GAP then 1 else 0) + Escapes(peaks[0].pass, peaks[1..])
  }

  /** Five bytes a peak, and five more for each gap of 255 passes or more. */
  lemma {:induction false} PayloadLength(last: nat, peaks: seq<FrequencyPeak>)
    requires PassesAscend(peaks) && PassesFit(peaks)
    requires peaks != [] ==> last <= peaks[0].pass
    ensures |Records(last, peaks)| == 5 * |peaks| + 5 * Escapes(last, peaks)
    decreases |peaks|
  {
    if peaks != [] {
      PayloadLength(peaks[0].pass, peaks[1..]);
    }
  }

  // ---------------------------------------------------------------------------------------
  // Bands
  // ---------------------------------------------------------------------------------------

  function Restored(bands: seq<FrequencyBand>, soundPeaks: PeakMap): PeakMap {
    map band | band in bands :: PeaksIn(soundPeaks, band)
  }

  ghost predicate Readable(soundPeaks: PeakMap) {
    forall band | band in soundPeaks :: PassesAscend(soundPeaks[band]) && PassesFit(soundPeaks[band])
  }

  lemma FrameSlices(marker: Bytes, length: Bytes, payload: Bytes, padding: Bytes, rest: Bytes)
    requires |marker| == |length| == 4
    ensures var data := marker + length + payload + padding + rest;
            && ReadLe32(data, 0) == ReadLe32(marker, 0) && ReadLe32(data, 4) == ReadLe32(length, 0)
            && data[8..8 + |payload|] == payload && data[8 + |payload| + |padding|..] == rest
  {
    FourBytesAreRead([], marker, length + payload + padding + rest);
    assert marker + length + payload + padding + rest == [] + marker + (length + payload + padding + rest);
    FourBytesAreRead(marker, length, payload + padding + rest);
    FramedIsJoined(marker, length, payload, padding, rest);
  }

  lemma SlicesReadAsBand(data: Bytes, payload: Bytes, rest: Bytes, band: FrequencyBand,
                         peaks: seq<FrequencyPeak>, others: PeakMap)
    requires |data| >= 8 && ReadLe32(data, 4) == |payload| && EndOfBand(data) <= |data|
    requires data[8..8 + |payload|] == payload && data[EndOfBand(data)..] == rest
    requires BandOfMarker(ReadLe32(data, 0)) == Some(band)
    requires ReadRecords(0, payload) == Some(peaks) && ReadBands(rest) == Some(others)
    ensures ReadBands(data) == Some(others[band := peaks])
  {
    assert ReadBands(data) == WithBand(data, ReadBands(rest));
  }

  /** The four parts of a band put together read as that band, before whatever other bands. */
  lemma FrameIsRead(marker: Bytes, length: Bytes, payload: Bytes, padding: Bytes, rest: Bytes, band: FrequencyBand,
                    peaks: seq<FrequencyPeak>, others: PeakMap)
    requires |marker| == |length| == 4 && |padding| == PaddingLength(|payload|)
    requires BandOfMarker(ReadLe32(marker, 0)) == Some(band) && ReadLe32(length, 0) == |payload|
    requires ReadRecords(0, payload) == Some(peaks) && ReadBands(rest) == Some(others)
    ensures ReadBands(marker + length + payload + padding + rest) == Some(others[band := peaks])
  {
    FrameSlices(marker, length, payload, padding, rest);
    SlicesReadAsBand(marker + length + payload + padding + rest, payload, rest, band, peaks, others);
  }

  type Reader = Bytes -> Option<PeakMap>

  /** Bytes that a reader takes for a band and its list, whatever follows. */
  ghost predicate ReadsAs(read: Reader, piece: Bytes, band: FrequencyBand, peaks: seq<FrequencyPeak>) {
    forall rest | read(rest).Some? :: read(piece + rest) == Some(read(rest).value[band := peaks])
  }

  /** The parts a band is written in. */
  lemma BandParts(band: FrequencyBand, payload: Bytes) returns (marker: Bytes, length: Bytes, padding: Bytes)
    requires |payload| < U32_LIMIT
    ensures BandBytes(band, payload) == marker + length + payload + padding
    ensures |marker| == |length| == 4 && |padding| == PaddingLength(|payload|)
    ensures BandOfMarker(ReadLe32(marker, 0)) == Some(band) && ReadLe32(length, 0) == |payload|
  {
    marker, length, padding := Le32(BAND_MARKER + band.Id()), Le32(|payload|), Zeros(PaddingLength(|payload|));
    Le32IsWhole(BAND_MARKER + band.Id());
    Le32IsWhole(|payload|);
  }

  lemma PartsReadAsBand(bytes: Bytes, marker: Bytes, length: Bytes, payload: Bytes, padding: Bytes,
                        band: FrequencyBand, peaks: seq<FrequencyPeak>)
    requires bytes == marker + length + payload + padding
    requires |marker| == |length| == 4 && |padding| == PaddingLength(|payload|)
    requires BandOfMarker(ReadLe32(marker, 0)) == Some(band) && ReadLe32(length, 0) == |payload|
    requires ReadRecords(0, payload) == Some(peaks)
    ensures ReadsAs(ReadBands, bytes, band, peaks)
  {
    forall rest | ReadBands(rest).Some? ensures ReadBands(bytes + rest) == Some(ReadBands(rest).value[band := peaks]) {
      FrameIsRead(marker, length, payload, padding, rest, band, peaks, ReadBands(rest).value);
    }
  }

  lemma PieceReadsAsBand(band: FrequencyBand, soundPeaks: PeakMap)
    requires Readable(soundPeaks) && |BandPiece(band, soundPeaks)| < U32_LIMIT
    ensures ReadsAs(ReadBands, BandPiece(band, soundPeaks), band, PeaksIn(soundPeaks, band))
  {
    var peaks := PeaksIn(soundPeaks, band);
    var payload := Records(0, peaks);
    PeaksRoundTrip(0, peaks);
    var marker, length, padding := BandParts(band, payload);
    PartsReadAsBand(BandPiece(band, soundPeaks), marker, length, payload, padding, band, peaks);
  }

  lemma RestoredNext(bands: seq<FrequencyBand>, soundPeaks: PeakMap)
    requires bands != []
    ensures Restored(bands, soundPeaks) == Restored(bands[1..], soundPeaks)[bands[0] := PeaksIn(soundPeaks, bands[0])]
  {
  }

  /** Each piece reads as the list of its band. */
  ghost predicate AllReadAs(read: Reader, bands: seq<FrequencyBand>, pieces: seq<Bytes>, soundPeaks: PeakMap)
    requires |bands| == |pieces|
  {
    forall i | 0 <= i < |bands| :: ReadsAs(read, pieces[i], bands[i], PeaksIn(soundPeaks, bands[i]))
  }

  lemma AllReadAsNext(read: Reader, bands: seq<FrequencyBand>, pieces: seq<Bytes>, soundPeaks: PeakMap)
    requires |bands| == |pieces| > 0 && AllReadAs(read, bands, pieces, soundPeaks)
    ensures ReadsAs(read, pieces[0], bands[0], PeaksIn(soundPeaks, bands[0]))
    ensures AllReadAs(read, bands[1..], pieces[1..], soundPeaks)
  {
    forall i | 0 <= i < |bands[1..]|
      ensures ReadsAs(read, pieces[1..][i], bands[1..][i], PeaksIn(soundPeaks, bands[1..][i]))
    {
      assert ReadsAs(read, pieces[i + 1], bands[i + 1], PeaksIn(soundPeaks, bands[i + 1]));
    }
  }

  lemma {:induction false} PiecesRoundTrip(read: Reader, bands: seq<FrequencyBand>, pieces: seq<Bytes>,
                                           soundPeaks: PeakMap)
    requires |bands| == |pieces| && read([]) == Some(map[]) && AllReadAs(read, bands, pieces, soundPeaks)
    ensures read(Concat(pieces)) == Some(Restored(bands, soundPeaks))
    decreases |bands|
  {
    if bands != [] {
      AllReadAsNext(read, bands, pieces, soundPeaks);
      PiecesRoundTrip(read, bands[1..], pieces[1..], soundPeaks);
      RestoredNext(bands, soundPeaks);
    }
  }

  lemma {:induction false} PieceIsWithin(pieces: seq<Bytes>, i: nat)
    requires i < |pieces|
    ensures |pieces[i]| <= |Concat(pieces)|
  {
    if i > 0 {
      PieceIsWithin(pieces[1..], i - 1);
    }
  }

  lemma BandsRoundTrip(bands: seq<FrequencyBand>, soundPeaks: PeakMap)
    requires Readable(soundPeaks) && |BandsBytes(bands, soundPeaks)| < U32_LIMIT
    ensures ReadBands(BandsBytes(bands, soundPeaks)) == Some(Restored(bands, soundPeaks))
  {
    var pieces := BandPieces(bands, soundPeaks);
    forall i | 0 <= i < |bands| ensures ReadsAs(ReadBands, pieces[i], bands[i], PeaksIn(soundPeaks, bands[i])) {
      PieceIsWithin(pieces, i);
      PieceReadsAsBand(bands[i], soundPeaks);
    }
    PiecesRoundTrip(ReadBands, bands, pieces, soundPeaks);
  }

  // ---------------------------------------------------------------------------------------
  // The whole signature
  // ---------------------------------------------------------------------------------------

  lemma {:induction false} WordIsRead(words: seq<u32>, i: nat, tail: Bytes)
    requires i < |words|
    ensures Word(Words(words) + tail, i) == words[i]
  {
    WordsSplit(words, i);
    var front, back := Words(words[..i]), Words(words[i + 1..]);
    assert Words(words) + tail == front + Le32(words[i]) + (back + tail);
    FourBytesAreRead(front, Le32(words[i]), back + tail);
    Le32IsWhole(words[i]);
  }

  lemma ChecksumCoversTheRest(crc: u32, other: u32, rateId: nat, numberSamples: u32, bands: Bytes)
    requires rateId <= 6
    ensures Assembled(crc, rateId, numberSamples, bands)[8..] == Assembled(other, rateId, numberSamples, bands)[8..]
  {
    var size := Wrapped(Wrapped(4 * WORD_COUNT + |bands|) - HEADER_LENGTH);
    var x: seq<u32> := HeaderWords(crc, size, rateId, numberSamples);
    var y: seq<u32> := HeaderWords(other, size, rateId, numberSamples);
    WordsSplit(x, CRC_WORD);
    WordsSplit(y, CRC_WORD);
    assert x[CRC_WORD + 1..] == y[CRC_WORD + 1..];
    assert (Words(x) + bands)[8..] == Words(x[CRC_WORD + 1..]) + bands;
    assert (Words(y) + bands)[8..] == Words(y[CRC_WORD + 1..]) + bands;
  }

  /** What the size fields hold. */
  function SizeField(length: nat): u32 {
    Wrapped(Wrapped(length) - HEADER_LENGTH)
  }

  ghost predicate HasFields(bytes: Bytes, crc: u32, rateId: nat, numberSamples: u32, bands: Bytes) {
    && |bytes| == 4 * WORD_COUNT + |bands| && bytes[4 * WORD_COUNT..] == bands
    && HasConstants(bytes)
    && Word(bytes, CRC_WORD) == crc
    && Word(bytes, SIZE_WORD) == Word(bytes, BODY_SIZE_WORD) == SizeField(|bytes|)
    && Word(bytes, RATE_WORD) == rateId * 0x800_0000
    && Word(bytes, SAMPLES_WORD) == numberSamples
  }

  /** Each field of an assembled signature, read back. */
  lemma FieldsAreRead(crc: u32, rateId: nat, numberSamples: u32, bands: Bytes)
    requires rateId <= 6
    ensures HasFields(Assembled(crc, rateId, numberSamples, bands), crc, rateId, numberSamples, bands)
  {
    var words: seq<u32> := HeaderWords(crc, SizeField(4 * WORD_COUNT + |bands|), rateId, numberSamples);
    forall i | 0 <= i < WORD_COUNT ensures Word(Words(words) + bands, i) == words[i] {
      WordIsRead(words, i, bands);
    }
  }

  lemma SizeFieldIsExact(length: nat)
    requires length >= 4 * WORD_COUNT
    ensures SizeField(length) == length - HEADER_LENGTH <==> length - HEADER_LENGTH < U32_LIMIT
  {
  }

  lemma FieldsSeal(crc32: Bytes -> u32, bytes: Bytes, rateId: nat, numberSamples: u32, bands: Bytes)
    requires |bytes| >= 8 && HasFields(bytes, crc32(bytes[8..]), rateId, numberSamples, bands)
    ensures WellSealed(crc32, bytes) <==> |bytes| - HEADER_LENGTH < U32_LIMIT
  {
    SizeFieldIsExact(|bytes|);
  }

  function BandsOf(signature: DecodedSignature): Bytes {
    BandsBytes(InOrder(signature.soundPeaks.Keys), signature.soundPeaks)
  }

  /** The encoder's output has its own checksum, and the rest of its fields as written. */
  lemma EncodedHasFields(crc32: Bytes -> u32, signature: DecodedSignature)
    requires Encode(crc32, signature).Success?
    ensures var bytes := Encode(crc32, signature).value;
            |bytes| >= 8 && HasFields(bytes, crc32(bytes[8..]), SampleRateId(signature.sampleRateHz).value,
                                      Wrapped(signature.numberSamples + ExtraSamples(signature.sampleRateHz)),
                                      BandsOf(signature))
  {
    var rateId := SampleRateId(signature.sampleRateHz).value;
    var samples := Wrapped(signature.numberSamples + ExtraSamples(signature.sampleRateHz));
    var crc := crc32(Assembled(0, rateId, samples, BandsOf(signature))[8..]);
    FieldsAreRead(crc, rateId, samples, BandsOf(signature));
    ChecksumCoversTheRest(0, crc, rateId, samples, BandsOf(signature));
  }

  /**
    The container: 56 bytes and the bands, with its length past the header in both size fields
    and the checksum of everything from the ninth byte on in the second word, as long as that
    length fits its 32 bits.
   */
  lemma Layout(crc32: Bytes -> u32, signature: DecodedSignature)
    requires Encode(crc32, signature).Success?
    ensures var bytes := Encode(crc32, signature).value;
            && |bytes| == 4 * WORD_COUNT + |BandsOf(signature)|
            && (WellSealed(crc32, bytes) <==> |bytes| - HEADER_LENGTH < U32_LIMIT)
  {
    EncodedHasFields(crc32, signature);
    FieldsSeal(crc32, Encode(crc32, signature).value, SampleRateId(signature.sampleRateHz).value,
               Wrapped(signature.numberSamples + ExtraSamples(signature.sampleRateHz)), BandsOf(signature));
  }

  /** The length of a band with a payload of so many bytes: eight more, and the padding. */
  function Framed(payload: nat): (length: nat)
    ensures length % 4 == 0
  {
    8 + payload + PaddingLength(payload)
  }

  function PieceLength(peaks: seq<FrequencyPeak>): nat {
    Framed(5 * |peaks| + 5 * Escapes(0, peaks))
  }

  function TotalLength(bands: seq<FrequencyBand>, length: FrequencyBand -> nat): nat {
    if bands == [] then 0 else length(bands[0]) + TotalLength(bands[1..], length)
  }

  function BandsLength(bands: seq<FrequencyBand>, soundPeaks: PeakMap): nat {
    TotalLength(bands, (band: FrequencyBand) => PieceLength(PeaksIn(soundPeaks, band)))
  }

  lemma BandBytesHaveLength(band: FrequencyBand, payload: Bytes)
    ensures |BandBytes(band, payload)| == Framed(|payload|)
  {
  }

  lemma PieceHasLength(band: FrequencyBand, soundPeaks: PeakMap)
    requires Readable(soundPeaks)
    ensures |BandPiece(band, soundPeaks)| == PieceLength(PeaksIn(soundPeaks, band))
  {
    var peaks := PeaksIn(soundPeaks, band);
    PayloadLength(0, peaks);
    BandBytesHaveLength(band, Records(0, peaks));
  }

  lemma {:induction false} PiecesHaveLength(bands: seq<FrequencyBand>, pieces: seq<Bytes>, length: FrequencyBand -> nat)
    requires |bands| == |pieces|
    requires forall i | 0 <= i < |bands| :: |pieces[i]| == length(bands[i]) && length(bands[i]) % 4 == 0
    ensures |Concat(pieces)| == TotalLength(bands, length) && TotalLength(bands, length) % 4 == 0
    decreases |bands|
  {
    if bands != [] {
      PiecesHaveLength(bands[1..], pieces[1..], length);
    }
  }

  lemma BandsHaveLength(bands: seq<FrequencyBand>, soundPeaks: PeakMap)
    requires Readable(soundPeaks)
    ensures |BandsBytes(bands, soundPeaks)| == BandsLength(bands, soundPeaks)
    ensures BandsLength(bands, soundPeaks) % 4 == 0
  {
    var pieces := BandPieces(bands, soundPeaks);
    var length := (band: FrequencyBand) => PieceLength(PeaksIn(soundPeaks, band));
    forall i | 0 <= i < |bands| ensures |pieces[i]| == length(bands[i]) && length(bands[i]) % 4 == 0 {
      PieceHasLength(bands[i], soundPeaks);
    }
    PiecesHaveLength(bands, pieces, length);
  }

  lemma InterpretedIff(signature: DecodedSignature, numberSamples: u32)
    requires SampleRateId(signature.sampleRateHz).Some?
    requires numberSamples == Wrapped(signature.numberSamples + ExtraSamples(signature.sampleRateHz))
    ensures Interpreted(SampleRateId(signature.sampleRateHz).value * 0x800_0000, numberSamples,
                        Some(signature.soundPeaks)) == Some(signature)
       <==> signature.numberSamples + ExtraSamples(signature.sampleRateHz) < U32_LIMIT
  {
    assert RateOfId(SampleRateId(signature.sampleRateHz).value * 0x800_0000) == Some(signature.sampleRateHz);
  }

  lemma BandsAreRead(signature: DecodedSignature)
    requires Readable(signature.soundPeaks) && |BandsOf(signature)| < U32_LIMIT
    ensures ReadBands(BandsOf(signature)) == Some(signature.soundPeaks)
  {
    var bands := InOrder(signature.soundPeaks.Keys);
    BandsRoundTrip(bands, signature.soundPeaks);
    assert Restored(bands, signature.soundPeaks) == signature.soundPeaks;
  }

  /** The length past the header and the padded sample count each fit their 32 bits. */
  ghost predicate FieldsFit(signature: DecodedSignature) {
    && 8 + BandsLength(InOrder(signature.soundPeaks.Keys), signature.soundPeaks) < U32_LIMIT
    && signature.numberSamples + ExtraSamples(signature.sampleRateHz) < U32_LIMIT
  }

  /**
    Whatever the encoder accepts it encodes so that it reads back, every band, pass, magnitude
    and bin of it, exactly when its length and its padded sample count fit their fields.
   */
  lemma RoundTripsIff(crc32: Bytes -> u32, signature: DecodedSignature)
    requires Encode(crc32, signature).Success?
    requires forall band | band in signature.soundPeaks :: PassesFit(signature.soundPeaks[band])
    ensures Decode(crc32, Encode(crc32, signature).value) == Some(signature) <==> FieldsFit(signature)
  {
    var samples := Wrapped(signature.numberSamples + ExtraSamples(signature.sampleRateHz));
    BandsHaveLength(InOrder(signature.soundPeaks.Keys), signature.soundPeaks);
    EncodedHasFields(crc32, signature);
    Layout(crc32, signature);
    InterpretedIff(signature, samples);
    if |BandsOf(signature)| < U32_LIMIT {
      BandsAreRead(signature);
    }
  }

  /** Nor need the peaks be many: a sample count that its padding takes past 32 bits is not read back. */
  lemma WrappedCountIsLost(crc32: Bytes -> u32)
    ensures var signature := DecodedSignature(16000, U32_LIMIT - 1, map[]);
            Encode(crc32, signature).Success? && Decode(crc32, Encode(crc32, signature).value) != Some(signature)
  {
    RoundTripsIff(crc32, DecodedSignature(16000, U32_LIMIT - 1, map[]));
  }
}
