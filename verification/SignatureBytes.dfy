/** The bytes of a signature, number by number, as a reader that knows nothing of the encoder expects them. */
module SignatureBytes {
  import opened Common
  import opened LittleEndian
  import opened Signature
  import opened SignatureFormat
  import opened SignatureDecoder

  predicate IsSupported(rate: u32) {
    rate == 8000 || rate == 11025 || rate == 16000 || rate == 32000 || rate == 44100 || rate == 48000
  }

  /** A signature is encoded exactly at the six rates and with ascending passes; a bad rate is reported first. */
  lemma EncodesIff(crc32: Bytes -> u32, signature: DecodedSignature)
    ensures var supported, soundPeaks := IsSupported(signature.sampleRateHz), signature.soundPeaks;
            match Encode(crc32, signature)
            case Success(_) => supported && forall band | band in soundPeaks :: PassesAscend(soundPeaks[band])
            case Failure(InvalidSampleRate) => !supported
            case Failure(PassesDescend) =>
              supported && exists band | band in soundPeaks :: !PassesAscend(soundPeaks[band])
  {
  }

  /** The number of a rate, in the top five bits of its word. */
  function RateWord(rate: u32): u32 {
    match rate
    case 8000 => 0x0800_0000
    case 11025 => 0x1000_0000
    case 16000 => 0x1800_0000
    case 32000 => 0x2000_0000
    case 44100 => 0x2800_0000
    case _ => 0x3000_0000
  }

  /** The fourteen words of a signature, for a checksum and a sample count. */
  ghost predicate HasWords(bytes: Bytes, crc: u32, rate: u32, numberSamples: u32) {
    && |bytes| >= 56
    && ReadLe32(bytes, 0) == 0xcafe_2580 && ReadLe32(bytes, 4) == crc
    && ReadLe32(bytes, 8) == (|bytes| - 48) % 0x1_0000_0000 && ReadLe32(bytes, 12) == 0x9411_9c00
    && ReadLe32(bytes, 16) == ReadLe32(bytes, 20) == ReadLe32(bytes, 24) == 0
    && ReadLe32(bytes, 28) == RateWord(rate)
    && ReadLe32(bytes, 32) == ReadLe32(bytes, 36) == 0
    && ReadLe32(bytes, 40) == numberSamples && ReadLe32(bytes, 44) == 0x007c_0000
    && ReadLe32(bytes, 48) == 0x4000_0000 && ReadLe32(bytes, 52) == (|bytes| - 48) % 0x1_0000_0000
  }

  lemma SizeFieldWraps(length: nat)
    requires length >= 48
    ensures SizeField(length) == (length - 48) % 0x1_0000_0000
  {
  }

  lemma FieldsAreWords(bytes: Bytes, crc: u32, rate: u32, rateId: nat, numberSamples: u32, bands: Bytes)
    requires SampleRateId(rate) == Some(rateId) && HasFields(bytes, crc, rateId, numberSamples, bands)
    ensures HasWords(bytes, crc, rate, numberSamples)
  {
    SizeFieldWraps(|bytes|);
  }

  /** 24 hundredths of a second more than there are, past 2^32 once more from 0. */
  function PaddedCount(signature: DecodedSignature): u32 {
    (signature.numberSamples + signature.sampleRateHz * 24 / 100) % 0x1_0000_0000
  }

  /** Every signature starts with its fourteen words: constants, its checksum, sizes, rate and sample count. */
  lemma EncodedWords(crc32: Bytes -> u32, signature: DecodedSignature)
    requires Encode(crc32, signature).Success?
    ensures var bytes := Encode(crc32, signature).value;
            |bytes| >= 8 && HasWords(bytes, crc32(bytes[8..]), signature.sampleRateHz, PaddedCount(signature))
  {
    var bytes, rate := Encode(crc32, signature).value, signature.sampleRateHz;
    EncodedHasFields(crc32, signature);
    FieldsAreWords(bytes, crc32(bytes[8..]), rate, SampleRateId(rate).value, PaddedCount(signature),
                   BandsOf(signature));
  }

  /** The padding is exactly 240 ms, which is a whole number of samples at every rate there is. */
  lemma SamplesArePadded(crc32: Bytes -> u32, signature: DecodedSignature)
    requires Encode(crc32, signature).Success? && signature.numberSamples < 0x8000_0000
    ensures var bytes := Encode(crc32, signature).value;
            |bytes| >= 56 && 100 * (ReadLe32(bytes, 40) - signature.numberSamples) == 24 * signature.sampleRateHz
  {
    EncodedWords(crc32, signature);
    PaddingIs240Ms(signature);
  }

  lemma PaddingIs240Ms(signature: DecodedSignature)
    requires IsSupported(signature.sampleRateHz) && signature.numberSamples < 0x8000_0000
    ensures 100 * (PaddedCount(signature) - signature.numberSamples) == 24 * signature.sampleRateHz
  {
  }

  function Byte(x: int, place: nat): u8 {
    (if place == 0 then x % 256 else if place == 1 then x / 256 % 256
     else if place == 2 then x / 65536 % 256 else x / 16777216 % 256) as u8
  }

  function Lowest(x: int, count: nat): (b: Bytes)
    ensures |b| == count
  {
    seq(count, i requires 0 <= i < count => Byte(x, i))
  }

  lemma NumbersAreLittleEndian(x: u16, y: u32)
    ensures Le16(x) == [Byte(x, 0), Byte(x, 1)]
    ensures Le32(y) == [Byte(y, 0), Byte(y, 1), Byte(y, 2), Byte(y, 3)]
  {
    assert y / 65536 == y / 256 / 256 && y / 16777216 == y / 256 / 256 / 256;
  }

  /** A peak less than 255 passes on is the gap, its magnitude and its bin, lower bytes first. */
  lemma NearRecord(last: nat, peak: FrequencyPeak)
    requires last <= peak.pass < last + 255
    ensures var m, b: int := peak.magnitude, peak.bin;
            Record(last, peak) == [(peak.pass - last) as u8, Byte(m, 0), Byte(m, 1), Byte(b, 0), Byte(b, 1)]
  {
    NumbersAreLittleEndian(peak.magnitude, 0);
    NumbersAreLittleEndian(peak.bin, 0);
  }

  /** Further on, it is 255, its pass, a gap of 0, and the rest as before. */
  lemma FarRecord(last: nat, peak: FrequencyPeak)
    requires last + 255 <= peak.pass < 0x1_0000_0000
    ensures var p, m, b: int := peak.pass, peak.magnitude, peak.bin;
            Record(last, peak) == [255, Byte(p, 0), Byte(p, 1), Byte(p, 2), Byte(p, 3), 0,
                                   Byte(m, 0), Byte(m, 1), Byte(b, 0), Byte(b, 1)]
  {
    NumbersAreLittleEndian(peak.magnitude, peak.pass);
    NumbersAreLittleEndian(peak.bin, 0);
  }

  /** The number of a band, from the lowest up. */
  function Number(band: FrequencyBand): int {
    match band
    case Band250To520 => 0
    case Band520To1450 => 1
    case Band1450To3500 => 2
    case Band3500To5500 => 3
  }

  lemma FourParts(marker: Bytes, length: Bytes, payload: Bytes, padding: Bytes)
    requires |marker| == |length| == 4
    ensures var bytes, end := marker + length + payload + padding, 8 + |payload|;
            bytes[..8] == marker + length && bytes[8..end] == payload && bytes[end..] == padding
  {
  }

  /** 0x60030040 and the band's number, the length of the payload, the payload, zeros up to a multiple of four. */
  ghost predicate IsBand(bytes: Bytes, band: FrequencyBand, payload: Bytes) {
    var length: int := |payload|;
    && |bytes| % 4 == 0 && 8 + length <= |bytes| < 8 + length + 4
    && bytes[..8] == [(0x40 + Number(band)) as u8, 0, 3, 0x60] + Lowest(length, 4)
    && bytes[8..8 + length] == payload
    && bytes[8 + length..] == Zeros(|bytes| - 8 - length)
  }

  lemma MarkerBytes(band: FrequencyBand)
    ensures Le32(BAND_MARKER + band.Id()) == [(0x40 + Number(band)) as u8, 0, 3, 0x60]
  {
    NumbersAreLittleEndian(0, BAND_MARKER + band.Id());
  }

  lemma PartsAreBand(marker: Bytes, length: Bytes, payload: Bytes, padding: Bytes, band: FrequencyBand)
    requires marker == [(0x40 + Number(band)) as u8, 0, 3, 0x60] && length == Lowest(|payload|, 4)
    requires padding == Zeros(|padding|) && |padding| < 4 && (|payload| + |padding|) % 4 == 0
    ensures IsBand(marker + length + payload + padding, band, payload)
  {
    FourParts(marker, length, payload, padding);
  }

  lemma LengthBytes(length: u32)
    ensures Le32(length) == Lowest(length, 4)
  {
    NumbersAreLittleEndian(0, length);
  }

  lemma PaddingIsShort(length: nat)
    ensures var padding := Zeros(PaddingLength(length));
            padding == Zeros(|padding|) && |padding| < 4 && (length + |padding|) % 4 == 0
  {
  }

  lemma BandIsLaidOut(band: FrequencyBand, payload: Bytes)
    requires |payload| < 0x1_0000_0000
    ensures IsBand(BandBytes(band, payload), band, payload)
  {
    var marker, length, padding := Le32(BAND_MARKER + band.Id()), Le32(|payload|), Zeros(PaddingLength(|payload|));
    MarkerBytes(band);
    LengthBytes(|payload|);
    PaddingIsShort(|payload|);
    BandIsParts(band, payload, marker, length, padding);
    PartsAreBand(marker, length, payload, padding, band);
  }

  lemma BandIsParts(band: FrequencyBand, payload: Bytes, marker: Bytes, length: Bytes, padding: Bytes)
    requires |payload| < 0x1_0000_0000
    requires marker == Le32(BAND_MARKER + band.Id()) && length == Le32(|payload|)
    requires padding == Zeros(PaddingLength(|payload|))
    ensures BandBytes(band, payload) == marker + length + payload + padding
  {
    assert Wrapped(|payload|) == |payload|;
  }

  lemma TwoRecords()
    ensures Records(0, [FrequencyPeak(0, 0x1234, 0x5678), FrequencyPeak(7, 0x4321, 0x8765)])
         == [0, 0x34, 0x12, 0x78, 0x56, 7, 0x21, 0x43, 0x65, 0x87]
  {
    var first, second := FrequencyPeak(0, 0x1234, 0x5678), FrequencyPeak(7, 0x4321, 0x8765);
    assert [first, second][1..] == [second] && [second][1..] == [];
    NearRecord(0, first);
    NearRecord(0, second);
    assert Records(7, []) == [];
  }

  lemma OneBand(band: FrequencyBand, soundPeaks: PeakMap)
    requires soundPeaks.Keys == {band}
    ensures BandsBytes(InOrder(soundPeaks.Keys), soundPeaks) == BandPiece(band, soundPeaks)
  {
    assert InOrder({band}) == [band];
    var pieces := BandPieces([band], soundPeaks);
    assert pieces == [BandPiece(band, soundPeaks)] && pieces[1..] == [];
    assert Concat(pieces) == pieces[0] + [];
  }

  lemma TenByteBand(payload: Bytes)
    requires |payload| == 10
    ensures BandBytes(Band250To520, payload) == [0x40, 0, 3, 0x60, 10, 0, 0, 0] + payload + [0, 0]
  {
    BandIsLaidOut(Band250To520, payload);
    var bytes := BandBytes(Band250To520, payload);
    assert bytes == bytes[..8] + bytes[8..18] + bytes[18..];
    assert Zeros(2) == [0, 0];
  }

  function TwoPeaks(): DecodedSignature {
    DecodedSignature(16000, 128000,
                     map[Band250To520 := [FrequencyPeak(0, 0x1234, 0x5678), FrequencyPeak(7, 0x4321, 0x8765)]])
  }

  /** Two peaks of the lowest band, as bytes from the end of the header words on. */
  lemma TwoPeaksEncoded(crc32: Bytes -> u32)
    ensures var encoded := Encode(crc32, TwoPeaks());
            && encoded.Success? && |encoded.value| == 76
            && encoded.value[56..]
                 == [0x40, 0, 3, 0x60, 10, 0, 0, 0] + [0, 0x34, 0x12, 0x78, 0x56, 7, 0x21, 0x43, 0x65, 0x87] + [0, 0]
  {
    var payload := [0, 0x34, 0x12, 0x78, 0x56, 7, 0x21, 0x43, 0x65, 0x87];
    TwoRecords();
    OneBand(Band250To520, TwoPeaks().soundPeaks);
    TenByteBand(payload);
    assert BandsOf(TwoPeaks()) == BandBytes(Band250To520, payload);
    EncodedHasFields(crc32, TwoPeaks());
  }
}
