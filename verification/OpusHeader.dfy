/** The `OpusHead` identification header: what the parser accepts and what it makes of it. */
module OpusHeader {
  import opened Common
  import opened LittleEndian
  import PacketDecoding

  type Error = PacketDecoding.Error

  /** `OpusHead` in ASCII. */
  const MAGIC: Bytes := [0x4f, 0x70, 0x75, 0x73, 0x48, 0x65, 0x61, 0x64]
  const MIN_LENGTH := 19

  const VERSION_OFFSET := 8
  const CHANNEL_COUNT_OFFSET := 9
  const PRE_SKIP_OFFSET := 10
  const INPUT_RATE_OFFSET := 12
  const OUTPUT_GAIN_OFFSET := 16
  const MAPPING_FAMILY_OFFSET := 18
  const STREAM_COUNT_OFFSET := 19
  const COUPLED_COUNT_OFFSET := 20
  const CHANNEL_MAPPING_OFFSET := 21

  const MAX_HEADER_VERSION: u8 := 15

  const FAMILY_RTP: u8 := 0
  const FAMILY_VORBIS: u8 := 1
  const FAMILY_DISCRETE: u8 := 255

  datatype StreamLayout = StreamLayout(streamCount: u8, coupledCount: u8, channelMapping: Bytes)

  /** The output gain stays the Q7.8 decibels the header holds; its power of ten is not taken. */
  datatype OpusHead = OpusHead(channelCount: nat, preSkip: nat, outputGain: i16, layout: StreamLayout)

  function MaxChannelsForFamily(family: u8): nat {
    match family
    case 0 => 2
    case 1 => 8
    case _ => 255
  }

  function ReadI16(data: Bytes, at: nat): i16
    requires at + 2 <= |data|
  {
    var raw := ReadLe16(data, at);
    if raw < 0x8000 then raw else raw - 0x1_0000
  }

  function ParseStreamLayout(data: Bytes, channelCount: nat): Result<StreamLayout, Error>
    requires |data| >= MIN_LENGTH && 0 < channelCount <= 255
  {
    var family := data[MAPPING_FAMILY_OFFSET];
    if family != FAMILY_RTP && family != FAMILY_VORBIS && family != FAMILY_DISCRETE then
      Failure(PacketDecoding.Unsupported("opus: the stream declares a mapping family we cannot read"))
    else if channelCount > MaxChannelsForFamily(family) then
      Failure(PacketDecoding.Unsupported("opus: the mapping family codes fewer channels than that"))
    else if family == FAMILY_RTP then
      var inOrder := seq(channelCount, i requires 0 <= i < channelCount => i as u8);
      Success(StreamLayout(1, if channelCount == 2 then 1 else 0, inOrder))
    else
      var tableEnd := CHANNEL_MAPPING_OFFSET + channelCount;
      if |data| < tableEnd then Failure(PacketDecoding.DecodeError("opus: the `OpusHead` mapping table is cut short"))
      else Success(StreamLayout(data[STREAM_COUNT_OFFSET], data[COUPLED_COUNT_OFFSET],
                                data[CHANNEL_MAPPING_OFFSET..tableEnd]))
  }

  function Parse(data: Bytes): Result<OpusHead, Error> {
    if |data| < MIN_LENGTH || !(MAGIC <= data) then
      Failure(PacketDecoding.Unsupported("opus: the stream carries no `OpusHead` header"))
    else if data[VERSION_OFFSET] > MAX_HEADER_VERSION then
      Failure(PacketDecoding.Unsupported("opus: the stream declares an unreadable header version"))
    else
      var channelCount := data[CHANNEL_COUNT_OFFSET] as int;
      if channelCount == 0 then
        Failure(PacketDecoding.Unsupported("opus: the stream declares an unusable channel count"))
      else
        match ParseStreamLayout(data, channelCount)
        case Failure(error) => Failure(error)
        case Success(layout) =>
          Success(OpusHead(channelCount, ReadLe16(data, PRE_SKIP_OFFSET), ReadI16(data, OUTPUT_GAIN_OFFSET), layout))
  }

  // ---------------------------------------------------------------------------------------
  // The header as section 5.1 of RFC 7845 lays it out
  // ---------------------------------------------------------------------------------------

  /** The fields of a header as a muxer has them, with the mapping table of section 5.1.1 if the family has one. */
  datatype Fields = Fields(version: u8, channelCount: u8, preSkip: u16, inputRate: u32, outputGain: i16, family: u8,
                           table: Option<StreamLayout>)

  function WriteI16(x: i16): (b: Bytes)
    ensures |b| == 2
  {
    Le16(if x >= 0 then x else x + 0x1_0000)
  }

  function WriteTable(table: Option<StreamLayout>): Bytes {
    match table
    case None => []
    case Some(layout) => [layout.streamCount, layout.coupledCount] + layout.channelMapping
  }

  function Write(f: Fields): Bytes {
    MAGIC + [f.version, f.channelCount] + Le16(f.preSkip) + Le32(f.inputRate) + WriteI16(f.outputGain)
      + [f.family] + WriteTable(f.table)
  }

  /** The headers this reader is for: a major version of 0, and 1 to 2, 1 to 8 or 1 to 255 channels by family. */
  predicate Readable(f: Fields) {
    && f.version < 16
    && match f.family
       case 0 => 1 <= f.channelCount <= 2 && f.table.None?
       case 1 => 1 <= f.channelCount <= 8 && f.table.Some? && |f.table.value.channelMapping| == f.channelCount as int
       case 255 => 1 <= f.channelCount && f.table.Some? && |f.table.value.channelMapping| == f.channelCount as int
       case _ => false
  }

  /** What section 5.1.1 has for the family that codes no table. */
  function ImpliedLayout(f: Fields): StreamLayout {
    match f.table
    case Some(layout) => layout
    case None => if f.channelCount == 2 then StreamLayout(1, 1, [0, 1]) else StreamLayout(1, 0, [0])
  }

  lemma U16IsRead(x: u16, front: Bytes, back: Bytes)
    ensures ReadLe16(front + Le16(x) + back, |front|) == x
  {
    var b := front + Le16(x) + back;
    assert b[|front|] == Le16(x)[0] && b[|front| + 1] == Le16(x)[1];
  }

  lemma I16IsRead(x: i16, front: Bytes, back: Bytes)
    ensures ReadI16(front + WriteI16(x) + back, |front|) == x
  {
    U16IsRead(if x >= 0 then x else x + 0x1_0000, front, back);
  }

  /** Where the fields of a written header are, whatever follows it. */
  lemma WrittenFields(f: Fields, rest: Bytes)
    ensures var data := Write(f) + rest;
            && |data| >= MIN_LENGTH && MAGIC <= data
            && data[VERSION_OFFSET] == f.version && data[CHANNEL_COUNT_OFFSET] == f.channelCount
            && data[MAPPING_FAMILY_OFFSET] == f.family
            && data[STREAM_COUNT_OFFSET..] == WriteTable(f.table) + rest
  {
    var start := MAGIC + [f.version, f.channelCount];
    var middle := Le16(f.preSkip) + Le32(f.inputRate) + WriteI16(f.outputGain);
    assert Write(f) + rest == start + middle + [f.family] + (WriteTable(f.table) + rest);
  }

  lemma WrittenNumbers(f: Fields, rest: Bytes)
    ensures var data := Write(f) + rest;
            && |data| >= MIN_LENGTH && ReadLe16(data, PRE_SKIP_OFFSET) == f.preSkip
            && ReadI16(data, OUTPUT_GAIN_OFFSET) == f.outputGain
  {
    var data := Write(f) + rest;
    var start := MAGIC + [f.version, f.channelCount];
    var rate, end := Le32(f.inputRate), [f.family] + WriteTable(f.table) + rest;
    assert data == start + Le16(f.preSkip) + (rate + WriteI16(f.outputGain) + end);
    U16IsRead(f.preSkip, start, rate + WriteI16(f.outputGain) + end);
    assert data == (start + Le16(f.preSkip) + rate) + WriteI16(f.outputGain) + end;
    I16IsRead(f.outputGain, start + Le16(f.preSkip) + rate, end);
  }

  /** Every readable header parses to its own fields, whatever follows it. */
  lemma WrittenHeadersParse(f: Fields, rest: Bytes)
    requires Readable(f)
    ensures Parse(Write(f) + rest)
         == Success(OpusHead(f.channelCount as int, f.preSkip, f.outputGain, ImpliedLayout(f)))
  {
    var data := Write(f) + rest;
    WrittenFields(f, rest);
    WrittenNumbers(f, rest);
    if f.table.Some? {
      var layout, table := f.table.value, data[STREAM_COUNT_OFFSET..];
      assert table == [layout.streamCount, layout.coupledCount] + layout.channelMapping + rest;
      assert data[STREAM_COUNT_OFFSET] == table[0] && data[COUPLED_COUNT_OFFSET] == table[1];
      assert data[CHANNEL_MAPPING_OFFSET..CHANNEL_MAPPING_OFFSET + f.channelCount as int]
          == table[2..2 + f.channelCount as int] == layout.channelMapping;
    } else {
      var channels := f.channelCount as int;
      assert seq(channels, i requires 0 <= i < channels => i as u8) == ImpliedLayout(f).channelMapping;
    }
  }

  /** The fields an accepted header starts with. */
  function FieldsOf(data: Bytes): Fields
    requires Parse(data).Success?
  {
    var head := Parse(data).value;
    var rate := ReadLe32(data, INPUT_RATE_OFFSET);
    Fields(data[VERSION_OFFSET], data[CHANNEL_COUNT_OFFSET], head.preSkip, rate, head.outputGain,
           data[MAPPING_FAMILY_OFFSET],
           if data[MAPPING_FAMILY_OFFSET] == FAMILY_RTP then None else Some(head.layout))
  }

  lemma GainIsWritten(data: Bytes, at: nat)
    requires at + 2 <= |data|
    ensures WriteI16(ReadI16(data, at)) == data[at..at + 2]
  {
  }

  lemma PiecesMakePrefix(data: Bytes, f: Fields)
    requires |data| >= MIN_LENGTH + |WriteTable(f.table)| && MAGIC <= data
    requires f.version == data[8] && f.channelCount == data[9] && f.family == data[18]
    requires Le16(f.preSkip) == data[10..12] && Le32(f.inputRate) == data[12..16]
    requires WriteI16(f.outputGain) == data[16..18]
    requires WriteTable(f.table) == data[19..19 + |WriteTable(f.table)|]
    ensures Write(f) <= data
  {
    var end := 19 + |WriteTable(f.table)|;
    var start := MAGIC + [f.version, f.channelCount];
    assert start == data[..10];
    assert start + Le16(f.preSkip) == data[..12];
    assert start + Le16(f.preSkip) + Le32(f.inputRate) == data[..16];
    assert start + Le16(f.preSkip) + Le32(f.inputRate) + WriteI16(f.outputGain) == data[..18];
    assert start + Le16(f.preSkip) + Le32(f.inputRate) + WriteI16(f.outputGain) + [f.family] == data[..19];
    assert Write(f) == data[..end];
  }

  lemma AcceptedHeaderIsReadable(data: Bytes)
    requires Parse(data).Success?
    ensures Readable(FieldsOf(data))
    ensures |data| >= MIN_LENGTH + |WriteTable(FieldsOf(data).table)| && MAGIC <= data
    ensures WriteTable(FieldsOf(data).table) == data[19..19 + |WriteTable(FieldsOf(data).table)|]
  {
  }

  lemma AcceptedHeaderIsWritten(data: Bytes)
    requires Parse(data).Success?
    ensures Readable(FieldsOf(data)) && Write(FieldsOf(data)) <= data
  {
    AcceptedHeaderIsReadable(data);
    Read16IsWritten(data, PRE_SKIP_OFFSET);
    Read32IsWritten(data, INPUT_RATE_OFFSET);
    GainIsWritten(data, OUTPUT_GAIN_OFFSET);
    PiecesMakePrefix(data, FieldsOf(data));
  }

  lemma ReadablePrefixIsAccepted(data: Bytes, f: Fields)
    requires Readable(f) && Write(f) <= data
    ensures Parse(data).Success?
  {
    var rest := data[|Write(f)|..];
    assert Write(f) + rest == data;
    WrittenHeadersParse(f, rest);
  }

  /** The parser accepts exactly the bytes that start with a readable header. */
  lemma AcceptsExactlyReadableHeaders(data: Bytes)
    ensures Parse(data).Success? <==> exists f :: Readable(f) && Write(f) <= data
  {
    if Parse(data).Success? {
      AcceptedHeaderIsWritten(data);
    }
    forall f | Readable(f) && Write(f) <= data ensures Parse(data).Success? {
      ReadablePrefixIsAccepted(data, f);
    }
  }

  /** An accepted header starts with its name, and a version of which the upper half is 0. */
  lemma HeaderIsNamed(data: Bytes)
    requires Parse(data).Success?
    ensures |data| >= 19 && data[8] < 16
    ensures forall i | 0 <= i < 8 :: data[i] as int == "OpusHead"[i] as int
  {
    assert data[0] == MAGIC[0] && data[1] == MAGIC[1] && data[2] == MAGIC[2] && data[3] == MAGIC[3];
    assert data[4] == MAGIC[4] && data[5] == MAGIC[5] && data[6] == MAGIC[6] && data[7] == MAGIC[7];
  }

  /** The output gain is a signed number of 16 bits, lower byte first: 0xff00 is -256, a decibel less. */
  lemma GainIsSigned(data: Bytes)
    requires Parse(data).Success?
    ensures var raw, gain: int := data[16] as int + 256 * data[17] as int, Parse(data).value.outputGain;
            (gain - raw) % 0x1_0000 == 0 && (data[17] >= 128 <==> gain < 0)
  {
  }

  /** What is refused is unsupported, except a header of a family with a table that ends before the table does. */
  lemma CutTableIsMalformed(data: Bytes)
    requires Parse(data).Failure?
    ensures !Parse(data).error.IoError?
    ensures Parse(data).error.DecodeError?
       <==> && 19 <= |data| < 21 + data[9] as int && MAGIC <= data && data[8] < 16
            && ((data[18] == 1 && 1 <= data[9] <= 8) || (data[18] == 255 && 1 <= data[9]))
  {
  }

  /** An accepted header always maps every channel. */
  lemma MappingHasEveryChannel(data: Bytes)
    requires Parse(data).Success?
    ensures var head := Parse(data).value;
            && |head.layout.channelMapping| == head.channelCount
            && 1 <= head.channelCount <= 255 && head.preSkip < U16_LIMIT
  {
  }
}
