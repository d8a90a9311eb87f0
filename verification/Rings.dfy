/** The slots of the generator's rings, and what a slot holds while later frames still raise it. */
module Rings {
  import opened Common
  import opened Spectrogram

  const RING := 256
  const SAMPLE_RING := 2048

  /** `x & 255` on a two's complement integer, negative ones included. */
  function Slot(x: int): (slot: nat)
    ensures slot < RING
  {
    x % RING
  }

  /** `x & 2047`. */
  function SampleSlot(x: int): (slot: nat)
    ensures slot < SAMPLE_RING
  {
    x % SAMPLE_RING
  }

  lemma SampleSlotMoves(x: int, y: int)
    ensures SampleSlot(SampleSlot(x) + y) == SampleSlot(x + y)
  {
  }

  lemma WholeTurn(x: int)
    ensures SampleSlot(x) == SampleSlot(x - SAMPLE_RING)
  {
  }

  /** The offsets as the code writes them, all but two past the ring's length and so really negative. */
  const RAW_OFFSETS := [-53, -45, 165, 172, 179, 186, 193, 200, 214, 221, 228, 235, 242, 249]

  lemma SlotsDiffer(t: int, u: int)
    requires t < u < t + RING
    ensures Slot(t) != Slot(u)
  {
  }

  lemma SlotMoves(x: int, y: int)
    ensures Slot(Slot(x) + y) == Slot(x + y)
  {
  }

  /** One frame's part of a spread spectrum, nothing while the frame is still to come. */
  function SoFar(h: History, n: int, t: int, c: int): real {
    if t < n then SpreadBin(h, t, c) else 0.0
  }

  /** A spread spectrum as it stands after n frames. */
  function PartialSpread(h: History, n: int, t: int, c: int): real {
    Max(Max(Max(SoFar(h, n, t, c), SoFar(h, n, t + 1, c)), SoFar(h, n, t + 3, c)), SoFar(h, n, t + 6, c))
  }

  ghost predicate NonNegative(h: History) {
    forall t, c :: h(t, c) >= 0.0
  }

  lemma SpreadsFinally(h: History, n: int, t: int, c: int)
    requires t + 6 < n
    ensures PartialSpread(h, n, t, c) == Spread(h, t, c)
  {
  }

  /** Frame n starts its own spread spectrum, raises those 1, 3 and 6 before it, and no other. */
  lemma SpreadGrows(h: History, n: int, t: int, c: int)
    requires NonNegative(h) && t <= n
    ensures t == n ==> PartialSpread(h, n + 1, t, c) == SpreadBin(h, n, c)
    ensures t == n - 1 || t == n - 3 || t == n - 6 ==>
              PartialSpread(h, n + 1, t, c) == Max(PartialSpread(h, n, t, c), SpreadBin(h, n, c))
    ensures t < n && t != n - 1 && t != n - 3 && t != n - 6 ==>
              PartialSpread(h, n + 1, t, c) == PartialSpread(h, n, t, c)
  {
  }

  /** The slot the code reads for each time offset holds the spread spectrum of that frame, and it is final. */
  lemma RawOffsetsReadBack(n: int, i: int)
    requires 0 <= i < |RAW_OFFSETS|
    ensures |RAW_OFFSETS| == |TIME_OFFSETS|
    ensures Slot(Slot(n) + RAW_OFFSETS[i]) == Slot(n - 46 + TIME_OFFSETS[i])
    ensures n - RING <= n - 46 + TIME_OFFSETS[i] && n - 46 + TIME_OFFSETS[i] + 6 < n
  {
    SlotMoves(n, RAW_OFFSETS[i]);
    assert TIME_OFFSETS[i] - 46 == if i < 2 then RAW_OFFSETS[i] else RAW_OFFSETS[i] - RING;
  }

  /** A block of 128 samples at a multiple of 128 overwrites none of the 1920 before it. */
  lemma BlockKeepsOthers(n: int, i: int)
    requires 128 * n - 1920 <= i < 128 * n
    ensures SampleSlot(128 * n) <= 1920
    ensures !(SampleSlot(128 * n) <= SampleSlot(i) < SampleSlot(128 * n) + 128)
  {
    var q, r := n / 16, n % 16;
    assert 128 * n == SAMPLE_RING * q + 128 * r;
    assert SampleSlot(128 * n) == 128 * r;
    var d := i - SAMPLE_RING * q;
    assert SampleSlot(i) == if d >= 0 then d else d + SAMPLE_RING;
  }

  lemma BlockIsContiguous(n: int, k: int)
    requires 0 <= k < 128
    ensures SampleSlot(128 * n) <= 1920
    ensures SampleSlot(128 * n + k) == SampleSlot(128 * n) + k
  {
    var q, r := n / 16, n % 16;
    assert 128 * n == SAMPLE_RING * q + 128 * r;
  }
}
