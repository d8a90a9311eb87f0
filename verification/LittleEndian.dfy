/** Bytes, and the integers both binary formats hold in them. */
module LittleEndian {
  import opened Common

  type Bytes = seq<u8>

  function Le16(x: u16): (b: Bytes)
    ensures |b| == 2
  {
    [(x % 256) as u8, (x / 256) as u8]
  }

  function Le32(x: u32): (b: Bytes)
    ensures |b| == 4
  {
    [(x % 256) as u8, (x / 256 % 256) as u8, (x / 256 / 256 % 256) as u8, (x / 256 / 256 / 256) as u8]
  }

  function ReadLe16(b: Bytes, at: nat): u16
    requires at + 2 <= |b|
  {
    b[at] as int + 256 * b[at + 1] as int
  }

  function ReadLe32(b: Bytes, at: nat): u32
    requires at + 4 <= |b|
  {
    b[at] as int + 256 * (b[at + 1] as int + 256 * (b[at + 2] as int + 256 * b[at + 3] as int))
  }

  lemma Le16IsWhole(x: u16)
    ensures ReadLe16(Le16(x), 0) == x
  {
  }

  lemma Le32IsWhole(x: u32)
    ensures ReadLe32(Le32(x), 0) == x
  {
  }

  lemma Read16IsWritten(b: Bytes, at: nat)
    requires at + 2 <= |b|
    ensures Le16(ReadLe16(b, at)) == b[at..at + 2]
  {
  }

  lemma Read32IsWritten(b: Bytes, at: nat)
    requires at + 4 <= |b|
    ensures Le32(ReadLe32(b, at)) == b[at..at + 4]
  {
    var low, high := b[at + 2] as int + 256 * b[at + 3] as int, b[at + 3] as int;
    assert ReadLe32(b, at) / 256 == b[at + 1] as int + 256 * low;
    assert ReadLe32(b, at) / 256 / 256 == low;
    assert ReadLe32(b, at) / 256 / 256 / 256 == high;
  }
}
