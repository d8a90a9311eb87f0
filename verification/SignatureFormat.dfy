/**
  The binary signature: a 48-byte header, then a body of one list of peaks per band, each a
  delta format padded to four bytes. Lengths and checksum are written last, over placeholders.
  CRC-32 is a parameter: any function of bytes.
 */
module SignatureFormat {
  import opened Common
  import opened LittleEndian
  import opened Signature

  const MAGIC_1: u32 := 0xcafe_2580
  const MAGIC_2: u32 := 0x9411_9c00
  const FIXED_VALUE: u32 := 15 * 0x8_0000 + 0x4_0000
  const BODY_MARKER: u32 := 0x4000_0000
  const BAND_MARKER: u32 := 0x6003_0040
  const HEADER_LENGTH := 48
  const ESCAPE: u8 := 0xff
  const ESCAPED_GAP := 255

  datatype EncodeError = InvalidSampleRate | PassesDescend

  // ---------------------------------------------------------------------------------------
  // What is written
  // ---------------------------------------------------------------------------------------

  /** Unsigned 32-bit arithmetic, as released: it wraps. */
  function Wrapped(x: int): u32 {
    x % U32_LIMIT
  }

  /** The rates the format has a number for; it is a multiple of 2^27 in its header word. */
  function SampleRateId(rate: u32): Option<nat> {
    match rate
    case 8000 => Some(1)
    case 11025 => Some(2)
    case 16000 => Some(3)
    case 32000 => Some(4)
    case 44100 => Some(5)
    case 48000 => Some(6)
    case _ => None
  }

  /** 240 ms worth of samples: the float product is a whole number at every rate with an id. */
  function ExtraSamples(rate: u32): nat {
    rate * 24 / 100
  }

  function Zeros(n: nat): (b: Bytes)
    ensures |b| == n
  {
    seq(n, i => 0 as u8)
  }

  function PaddingLength(length: nat): (padding: nat)
    ensures padding < 4 && (length + padding) % 4 == 0
  {
    (4 - length % 4) % 4
  }

  function Coordinates(peak: FrequencyPeak): (b: Bytes)
    ensures |b| == 4
  {
    Le16(peak.magnitude) + Le16(peak.bin)
  }

  /** One peak after a peak of pass `last`: a gap of 255 passes or more is escaped and written whole. */
  function Record(last: nat, peak: FrequencyPeak): Bytes {
    if Wrapped(peak.pass - last) >= ESCAPED_GAP then [ESCAPE] + Le32(Wrapped(peak.pass)) + [0] + Coordinates(peak)
    else [((peak.pass - last) % 256) as u8] + Coordinates(peak)
  }

  function Records(last: nat, peaks: seq<FrequencyPeak>): Bytes
    decreases |peaks|
  {
    if peaks == [] then [] else Record(last, peaks[0]) + Records(peaks[0].pass, peaks[1..])
  }

  function BandBytes(band: FrequencyBand, payload: Bytes): Bytes {
    Le32(BAND_MARKER + band.Id()) + Le32(Wrapped(|payload|)) + payload + Zeros(PaddingLength(|payload|))
  }

  function BandPiece(band: FrequencyBand, soundPeaks: PeakMap): Bytes {
    BandBytes(band, Records(0, PeaksIn(soundPeaks, band)))
  }

  /** The bytes of each of the given bands. */
  function BandPieces(bands: seq<FrequencyBand>, soundPeaks: PeakMap): (pieces: seq<Bytes>)
    ensures |pieces| == |bands|
  {
    seq(|bands|, i requires 0 <= i < |bands| => BandPiece(bands[i], soundPeaks))
  }

  function BandsBytes(bands: seq<FrequencyBand>, soundPeaks: PeakMap): Bytes {
    Concat(BandPieces(bands, soundPeaks))
  }

  ghost predicate Writable(soundPeaks: PeakMap) {
    forall band | band in soundPeaks :: PassesAscend(soundPeaks[band])
  }

  function Words(words: seq<u32>): (b: Bytes)
    ensures |b| == 4 * |words|
  {
    if words == [] then [] else Le32(words[0]) + Words(words[1..])
  }

  const WORD_COUNT := 14
  const CRC_WORD := 1
  const SIZE_WORD := 2
  const RATE_WORD := 7
  const SAMPLES_WORD := 10
  const BODY_SIZE_WORD := 13

  /** One of the twelve words of the header or the two that open the body. */
  function HeaderWord(i: nat, crc: u32, size: u32, rateId: nat, numberSamples: u32): u32
    requires rateId <= 6
  {
    match i
    case 0 => MAGIC_1
    case 1 => crc
    case 2 => size
    case 3 => MAGIC_2
    case 7 => rateId * 0x800_0000
    case 10 => numberSamples
    case 11 => FIXED_VALUE
    case 12 => BODY_MARKER
    case 13 => size
    case _ => 0
  }

  function HeaderWords(crc: u32, size: u32, rateId: nat, numberSamples: u32): (words: seq<u32>)
    requires rateId <= 6
    ensures |words| == WORD_COUNT
  {
    seq(WORD_COUNT, i requires 0 <= i < WORD_COUNT => HeaderWord(i, crc, size, rateId, numberSamples))
  }

  ghost predicate Ascending(bands: seq<FrequencyBand>) {
    forall i, j | 0 <= i < j < |bands| :: bands[i].Id() < bands[j].Id()
  }

  /** Exactly the given bands, in the order of their ids. */
  function InOrder(present: set<FrequencyBand>): (bands: seq<FrequencyBand>)
    ensures forall band :: band in bands <==> band in present
  {
    OnlyIf(Band250To520, present) + OnlyIf(Band520To1450, present)
      + OnlyIf(Band1450To3500, present) + OnlyIf(Band3500To5500, present)
  }

  function OnlyIf(band: FrequencyBand, present: set<FrequencyBand>): (bands: seq<FrequencyBand>)
    ensures forall b :: b in bands <==> b == band && b in present
  {
    if band in present then [band] else []
  }

  lemma InOrderAscends(present: set<FrequencyBand>)
    ensures Ascending(InOrder(present))
  {
  }

  /** A whole signature, for whatever checksum. */
  function Assembled(crc: u32, rateId: nat, numberSamples: u32, bands: Bytes): Bytes
    requires rateId <= 6
  {
    Words(HeaderWords(crc, Wrapped(Wrapped(4 * WORD_COUNT + |bands|) - HEADER_LENGTH), rateId, numberSamples)) + bands
  }

  ghost function Encode(crc32: Bytes -> u32, signature: DecodedSignature): Result<Bytes, EncodeError> {
    if SampleRateId(signature.sampleRateHz).None? then Failure(InvalidSampleRate)
    else if !Writable(signature.soundPeaks) then Failure(PassesDescend)
    else
      var bands := BandsBytes(InOrder(signature.soundPeaks.Keys), signature.soundPeaks);
      var numberSamples := Wrapped(signature.numberSamples + ExtraSamples(signature.sampleRateHz));
      var rateId := SampleRateId(signature.sampleRateHz).value;
      Success(Assembled(crc32(Assembled(0, rateId, numberSamples, bands)[8..]), rateId, numberSamples, bands))
  }

  // ---------------------------------------------------------------------------------------
  // How it is written
  // ---------------------------------------------------------------------------------------

  /** A growable buffer written at a position that seeks. */
  class Cursor {
    var bytes: Bytes
    var position: nat

    ghost predicate Valid()
      reads this
    {
      position <= |bytes|
    }

    constructor ()
      ensures Valid() && bytes == [] && position == 0
    {
      bytes, position := [], 0;
    }

    /** Overwrites what is at the position and goes on past the end. */
    method Write(data: Bytes)
      requires Valid()
      modifies this
      ensures Valid() && position == old(position) + |data|
      ensures bytes == old(bytes)[..old(position)] + data
                       + if position <= |old(bytes)| then old(bytes)[position..] else []
    {
      var end := position + |data|;
      bytes := bytes[..position] + data + if end <= |bytes| then bytes[end..] else [];
      position := end;
    }

    /** A write with nothing after it. */
    method Append(data: Bytes)
      requires Valid() && position == |bytes|
      modifies this
      ensures Valid() && position == |bytes|
      ensures bytes == old(bytes) + data
    {
      Write(data);
    }

    method Seek(to: nat)
      requires to <= |bytes|
      modifies this
      ensures Valid() && position == to && bytes == old(bytes)
    {
      position := to;
    }
  }

  lemma {:induction false} AscendingIsUnique(x: seq<FrequencyBand>, y: seq<FrequencyBand>)
    requires Ascending(x) && Ascending(y)
    requires forall band :: band in x <==> band in y
    ensures x == y
  {
    assert |x| > 0 ==> x[0] in y;
    assert |y| > 0 ==> y[0] in x;
    if |x| > 0 && |y| > 0 {
      assert x[0] == y[0];
      forall band ensures band in x[1..] <==> band in y[1..] {
        if band in x[1..] { assert band in y && band != y[0]; }
        if band in y[1..] { assert band in x && band != x[0]; }
      }
      AscendingIsUnique(x[1..], y[1..]);
    }
  }

  /** Sorting by id, from any order the map hands its entries back in. */
  method SortBands(entries: seq<FrequencyBand>) returns (sorted: seq<FrequencyBand>)
    requires forall i, j | 0 <= i < j < |entries| :: entries[i] != entries[j]
    ensures Ascending(sorted)
    ensures forall band :: band in sorted <==> band in entries
  {
    sorted := [];
    for i := 0 to |entries|
      invariant Ascending(sorted)
      invariant forall band :: band in sorted <==> band in entries[..i]
    {
      var at := 0;
      while at < |sorted| && sorted[at].Id() < entries[i].Id()
        invariant at <= |sorted|
        invariant forall k | 0 <= k < at :: sorted[k].Id() < entries[i].Id()
      {
        at := at + 1;
      }
      assert entries[i] !in sorted;
      assert entries[..i + 1] == entries[..i] + [entries[i]];
      sorted := sorted[..at] + [entries[i]] + sorted[at..];
    }
    assert entries[..|entries|] == entries;
  }

  function LastPass(last: nat, peaks: seq<FrequencyPeak>): nat {
    if peaks == [] then last else peaks[|peaks| - 1].pass
  }

  lemma {:induction false} RecordsAppend(last: nat, peaks: seq<FrequencyPeak>, peak: FrequencyPeak)
    ensures Records(last, peaks + [peak]) == Records(last, peaks) + Record(LastPass(last, peaks), peak)
    decreases |peaks|
  {
    if peaks == [] {
      assert peaks + [peak] == [peak];
      assert Records(peak.pass, []) == [];
    } else {
      assert (peaks + [peak])[1..] == peaks[1..] + [peak];
      RecordsAppend(peaks[0].pass, peaks[1..], peak);
    }
  }

  /** Writes one record, an escape and the pass itself before it where the gap asks for them. */
  method WriteRecord(cursor: Cursor, last: nat, peak: FrequencyPeak)
    requires cursor.Valid() && cursor.position == |cursor.bytes|
    modifies cursor
    ensures cursor.Valid() && cursor.position == |cursor.bytes|
    ensures cursor.bytes == old(cursor.bytes) + Record(last, peak)
  {
    var pass := last;
    if Wrapped(peak.pass - pass) >= ESCAPED_GAP {
      cursor.Append([ESCAPE]);
      cursor.Append(Le32(Wrapped(peak.pass)));
      pass := peak.pass;
    }
    cursor.Append([((peak.pass - pass) % 256) as u8]);
    cursor.Append(Le16(peak.magnitude));
    cursor.Append(Le16(peak.bin));
  }

  /** Whatever order the entries come in, sorting leaves one. */
  method SortedEntries(entries: seq<FrequencyBand>, ghost present: set<FrequencyBand>)
    returns (sorted: seq<FrequencyBand>)
    requires forall band :: band in entries <==> band in present
    requires forall i, j | 0 <= i < j < |entries| :: entries[i] != entries[j]
    ensures sorted == InOrder(present)
  {
    sorted := SortBands(entries);
    InOrderAscends(present);
    AscendingIsUnique(sorted, InOrder(present));
  }

  /** The payload of one band, or the failed assertion. */
  method EncodePeaks(peaks: seq<FrequencyPeak>) returns (r: Result<Bytes, EncodeError>)
    ensures r == if PassesAscend(peaks) then Success(Records(0, peaks)) else Failure(PassesDescend)
  {
    var cursor := new Cursor();
    var pass := 0;
    for i := 0 to |peaks|
      invariant cursor.Valid() && cursor.position == |cursor.bytes| && fresh(cursor)
      invariant PassesAscend(peaks[..i]) && cursor.bytes == Records(0, peaks[..i])
      invariant pass == LastPass(0, peaks[..i])
    {
      if peaks[i].pass < pass {
        assert !PassesAscend(peaks);
        return Failure(PassesDescend);
      }
      assert peaks[..i + 1] == peaks[..i] + [peaks[i]];
      RecordsAppend(0, peaks[..i], peaks[i]);
      WriteRecord(cursor, pass, peaks[i]);
      pass := peaks[i].pass;
    }
    assert peaks[..|peaks|] == peaks;
    return Success(cursor.bytes);
  }

  method WritePadding(cursor: Cursor, length: nat)
    requires cursor.Valid() && cursor.position == |cursor.bytes|
    modifies cursor
    ensures cursor.Valid() && cursor.position == |cursor.bytes|
    ensures cursor.bytes == old(cursor.bytes) + Zeros(PaddingLength(length))
  {
    var padding := (4 - Wrapped(length) % 4) % 4;
    for i := 0 to padding
      invariant cursor.Valid() && cursor.position == |cursor.bytes|
      invariant cursor.bytes == old(cursor.bytes) + Zeros(i)
    {
      cursor.Append([0]);
      assert Zeros(i) + [0] == Zeros(i + 1);
    }
  }

  lemma JoinsFour(front: Bytes, a: Bytes, b: Bytes, c: Bytes, d: Bytes)
    ensures front + a + b + c + d == front + (a + b + c + d)
  {
  }

  /** One band: marker, length, payload, padding. */
  method WriteBand(cursor: Cursor, band: FrequencyBand, payload: Bytes)
    requires cursor.Valid() && cursor.position == |cursor.bytes|
    modifies cursor
    ensures cursor.Valid() && cursor.position == |cursor.bytes|
    ensures cursor.bytes == old(cursor.bytes) + BandBytes(band, payload)
  {
    var marker, length := Le32(BAND_MARKER + band.Id()), Le32(Wrapped(|payload|));
    cursor.Append(marker);
    cursor.Append(length);
    cursor.Append(payload);
    WritePadding(cursor, |payload|);
    JoinsFour(old(cursor.bytes), marker, length, payload, Zeros(PaddingLength(|payload|)));
  }

  method WriteEntry(cursor: Cursor, band: FrequencyBand, soundPeaks: PeakMap, ghost piece: Bytes)
    returns (ok: bool)
    requires cursor.Valid() && cursor.position == |cursor.bytes|
    requires band in soundPeaks && piece == BandPiece(band, soundPeaks)
    modifies cursor
    ensures ok <==> PassesAscend(soundPeaks[band])
    ensures ok ==> cursor.Valid() && cursor.position == |cursor.bytes|
    ensures ok ==> cursor.bytes == old(cursor.bytes) + piece
  {
    var payload := EncodePeaks(soundPeaks[band]);
    ok := payload.Success?;
    if ok {
      WriteBand(cursor, band, payload.value);
    }
  }

  lemma NextPiece(front: Bytes, pieces: seq<Bytes>, i: nat)
    requires i < |pieces|
    ensures front + Concat(pieces[..i]) + pieces[i] == front + Concat(pieces[..i + 1])
  {
    ConcatNext(pieces, i);
  }

  ghost predicate FirstAscend(bands: seq<FrequencyBand>, soundPeaks: PeakMap, count: nat)
    requires count <= |bands|
  {
    forall k | 0 <= k < count :: PassesAscend(PeaksIn(soundPeaks, bands[k]))
  }

  lemma AllAscendIsWritable(bands: seq<FrequencyBand>, soundPeaks: PeakMap)
    requires forall band | band in soundPeaks :: band in bands
    requires FirstAscend(bands, soundPeaks, |bands|)
    ensures Writable(soundPeaks)
  {
    forall band | band in soundPeaks ensures PassesAscend(soundPeaks[band]) {
      var k :| 0 <= k < |bands| && bands[k] == band;
    }
  }

  /** Writes the bands up to the first whose passes descend. */
  method WriteWhileAscending(cursor: Cursor, sorted: seq<FrequencyBand>, soundPeaks: PeakMap,
                             ghost pieces: seq<Bytes>)
    returns (written: nat)
    requires cursor.Valid() && cursor.position == |cursor.bytes|
    requires forall i | 0 <= i < |sorted| :: sorted[i] in soundPeaks
    requires |pieces| == |sorted| && forall i | 0 <= i < |sorted| :: pieces[i] == BandPiece(sorted[i], soundPeaks)
    modifies cursor
    ensures written <= |sorted| && FirstAscend(sorted, soundPeaks, written)
    ensures written < |sorted| ==> !PassesAscend(PeaksIn(soundPeaks, sorted[written]))
    ensures written == |sorted| ==> cursor.Valid() && cursor.position == |cursor.bytes|
    ensures written == |sorted| ==> cursor.bytes == old(cursor.bytes) + Concat(pieces)
  {
    ghost var front := cursor.bytes;
    for i := 0 to |sorted|
      invariant cursor.Valid() && cursor.position == |cursor.bytes|
      invariant FirstAscend(sorted, soundPeaks, i)
      invariant cursor.bytes == front + Concat(pieces[..i])
    {
      var ok := WriteEntry(cursor, sorted[i], soundPeaks, pieces[i]);
      if !ok {
        return i;
      }
      NextPiece(front, pieces, i);
    }
    assert pieces[..|sorted|] == pieces;
    return |sorted|;
  }

  method WriteBands(cursor: Cursor, sorted: seq<FrequencyBand>, soundPeaks: PeakMap)
    returns (ok: bool)
    requires cursor.Valid() && cursor.position == |cursor.bytes|
    requires forall band | band in soundPeaks :: band in sorted
    requires forall i | 0 <= i < |sorted| :: sorted[i] in soundPeaks
    modifies cursor
    ensures ok <==> Writable(soundPeaks)
    ensures ok ==> cursor.Valid() && cursor.position == |cursor.bytes|
    ensures ok ==> cursor.bytes == old(cursor.bytes) + BandsBytes(sorted, soundPeaks)
  {
    var written := WriteWhileAscending(cursor, sorted, soundPeaks, BandPieces(sorted, soundPeaks));
    ok := written == |sorted|;
    if ok {
      AllAscendIsWritable(sorted, soundPeaks);
    }
  }

  lemma {:induction false} WordsConcat(front: seq<u32>, back: seq<u32>)
    ensures Words(front + back) == Words(front) + Words(back)
  {
    if front == [] {
      assert front + back == back;
    } else {
      assert (front + back)[1..] == front[1..] + back;
      WordsConcat(front[1..], back);
    }
  }

  lemma WordsSplit(words: seq<u32>, i: nat)
    requires i < |words|
    ensures Words(words) == Words(words[..i]) + Le32(words[i]) + Words(words[i + 1..])
    ensures |Words(words[..i])| == 4 * i
  {
    assert words == words[..i] + ([words[i]] + words[i + 1..]);
    WordsConcat(words[..i], [words[i]] + words[i + 1..]);
    assert ([words[i]] + words[i + 1..])[1..] == words[i + 1..];
  }

  lemma WordReplaced(words: seq<u32>, i: nat, word: u32, tail: Bytes)
    requires i < |words|
    ensures (Words(words) + tail)[..4 * i] + Le32(word) + (Words(words) + tail)[4 * i + 4..]
         == Words(words[i := word]) + tail
  {
    WordsSplit(words, i);
    WordsSplit(words[i := word], i);
    assert words[i := word][..i] == words[..i];
    assert words[i := word][i + 1..] == words[i + 1..];
    var front, back, was := Words(words[..i]), Words(words[i + 1..]), Le32(words[i]);
    assert (front + was + back + tail)[..4 * i] == front;
    assert (front + was + back + tail)[4 * i + 4..] == back + tail;
  }

  /** Seeking to a word and writing another there replaces that word and nothing else. */
  method Overwrite(cursor: Cursor, at: nat, word: u32, ghost i: nat, ghost words: seq<u32>, ghost tail: Bytes)
    requires cursor.bytes == Words(words) + tail
    requires at == 4 * i && i < |words|
    modifies cursor
    ensures cursor.Valid()
    ensures cursor.bytes == Words(words[i := word]) + tail
  {
    WordReplaced(words, i, word, tail);
    cursor.Seek(at);
    cursor.Write(Le32(word));
  }

  method WriteWord(cursor: Cursor, word: u32, ghost i: nat, ghost words: seq<u32>)
    requires cursor.Valid() && cursor.position == |cursor.bytes|
    requires i < |words| && word == words[i] && cursor.bytes == Words(words[..i])
    modifies cursor
    ensures cursor.Valid() && cursor.position == |cursor.bytes| && cursor.bytes == Words(words[..i + 1])
  {
    cursor.Append(Le32(word));
    assert words[..i + 1] == words[..i] + [word];
    WordsConcat(words[..i], [word]);
    assert Words([word]) == Le32(word) + Words([]);
  }

  method WriteHeaderStart(cursor: Cursor, shiftedRateId: u32, ghost w: seq<u32>)
    requires cursor.Valid() && cursor.bytes == [] && |w| == WORD_COUNT
    requires w[0] == MAGIC_1 && w[1] == w[2] == 0 && w[3] == MAGIC_2
    requires w[4] == w[5] == w[6] == 0 && w[7] == shiftedRateId
    modifies cursor
    ensures cursor.Valid() && cursor.position == |cursor.bytes| && cursor.bytes == Words(w[..8])
  {
    WriteWord(cursor, MAGIC_1, 0, w);
    WriteWord(cursor, 0, 1, w);
    WriteWord(cursor, 0, 2, w);
    WriteWord(cursor, MAGIC_2, 3, w);
    WriteWord(cursor, 0, 4, w);
    WriteWord(cursor, 0, 5, w);
    WriteWord(cursor, 0, 6, w);
    WriteWord(cursor, shiftedRateId, 7, w);
  }

  method WriteHeaderEnd(cursor: Cursor, numberSamples: u32, ghost w: seq<u32>)
    requires cursor.Valid() && |w| == WORD_COUNT
    requires cursor.position == |cursor.bytes| && cursor.bytes == Words(w[..8])
    requires w[8] == w[9] == 0 && w[10] == numberSamples && w[11] == FIXED_VALUE && w[12] == BODY_MARKER && w[13] == 0
    modifies cursor
    ensures cursor.Valid() && cursor.position == |cursor.bytes| && cursor.bytes == Words(w)
  {
    WriteWord(cursor, 0, 8, w);
    WriteWord(cursor, 0, 9, w);
    WriteWord(cursor, numberSamples, 10, w);
    WriteWord(cursor, FIXED_VALUE, 11, w);
    WriteWord(cursor, BODY_MARKER, 12, w);
    WriteWord(cursor, 0, 13, w);
    assert w[..14] == w;
  }

  /** The header, with zeros for the checksum and the two sizes. */
  method WriteHeader(cursor: Cursor, rateId: nat, numberSamples: u32)
    requires cursor.Valid() && cursor.bytes == [] && rateId <= 6
    modifies cursor
    ensures cursor.Valid() && cursor.position == |cursor.bytes|
    ensures cursor.bytes == Words(HeaderWords(0, 0, rateId, numberSamples))
  {
    ghost var w: seq<u32> := HeaderWords(0, 0, rateId, numberSamples);
    WriteHeaderStart(cursor, rateId * 0x800_0000, w);
    WriteHeaderEnd(cursor, numberSamples, w);
  }

  /** Goes back over the placeholders: the two sizes first, then the checksum over all behind it. */
  method Patch(crc32: Bytes -> u32, cursor: Cursor, ghost rateId: nat, ghost numberSamples: u32, ghost bands: Bytes)
    requires cursor.Valid() && rateId <= 6
    requires cursor.bytes == Words(HeaderWords(0, 0, rateId, numberSamples)) + bands
    requires cursor.position == |cursor.bytes|
    modifies cursor
    ensures cursor.bytes
         == Assembled(crc32(Assembled(0, rateId, numberSamples, bands)[8..]), rateId, numberSamples, bands)
  {
    var size: u32 := Wrapped(Wrapped(cursor.position) - HEADER_LENGTH);
    ghost var w: seq<u32> := HeaderWords(0, 0, rateId, numberSamples);
    Overwrite(cursor, 8, size, SIZE_WORD, w, bands);
    Overwrite(cursor, HEADER_LENGTH + 4, size, BODY_SIZE_WORD, w[SIZE_WORD := size], bands);
    ghost var sized: seq<u32> := HeaderWords(0, size, rateId, numberSamples);
    assert w[SIZE_WORD := size][BODY_SIZE_WORD := size] == sized;
    var crc: u32 := crc32(cursor.bytes[8..]);
    Overwrite(cursor, 4, crc, CRC_WORD, sized, bands);
    assert sized[CRC_WORD := crc] == HeaderWords(crc, size, rateId, numberSamples);
  }

  /** The encoder, for any order in which the map hands back its entries. */
  method EncodeToBinary(crc32: Bytes -> u32, signature: DecodedSignature, entries: seq<FrequencyBand>)
    returns (r: Result<Bytes, EncodeError>)
    requires forall band :: band in entries <==> band in signature.soundPeaks
    requires forall i, j | 0 <= i < j < |entries| :: entries[i] != entries[j]
    ensures r == Encode(crc32, signature)
  {
    var rateId := SampleRateId(signature.sampleRateHz);
    if rateId.None? {
      return Failure(InvalidSampleRate);
    }
    var cursor := new Cursor();
    var numberSamples := Wrapped(signature.numberSamples + ExtraSamples(signature.sampleRateHz));
    WriteHeader(cursor, rateId.value, numberSamples);

    var sorted := SortedEntries(entries, signature.soundPeaks.Keys);
    var ok := WriteBands(cursor, sorted, signature.soundPeaks);
    if !ok {
      return Failure(PassesDescend);
    }
    Patch(crc32, cursor, rateId.value, numberSamples, BandsBytes(sorted, signature.soundPeaks));
    return Success(cursor.bytes);
  }
}
