/**
  `SignatureGenerator`: three rings written in place, a block of 128 samples at a time, and the
  map of peaks they yield. Its methods are held to the history of the whole recording: after n
  blocks the sample ring is its last 2048 samples, and slot t & 255 of the other two belongs to
  frame t for every t from n - 256 to n - 1.
 */
module Generator {
  import opened Common
  import opened Signature
  import opened Spectrogram
  import opened Interpolation
  import opened Fingerprint
  import opened Rings

  /** How many frames back a frame raises spread spectra. */
  const FORMER_NUMBERS := [1, 3, 6]

  /** Whether t is among the first few frames that frame n raises. */
  predicate IsFormer(n: int, t: int, formers: int) {
    (formers >= 1 && t == n - 1) || (formers >= 2 && t == n - 3) || (formers >= 3 && t == n - 6)
  }

  /** The spread spectra while frame n raises them: done below a bin, and there for the first few frames. */
  ghost function Raising(h: History, n: nat, position: int, formers: int): History {
    (t: int, c: int) => if c < position || (c == position && IsFormer(n, t, formers)) then PartialSpread(h, n + 1, t, c)
                        else PartialSpread(h, n, t, c)
  }

  lemma NextFormer(n: int, t: int, i: int)
    requires 0 <= i < |FORMER_NUMBERS|
    ensures 1 <= FORMER_NUMBERS[i] <= 6
    ensures IsFormer(n, t, i + 1) <==> IsFormer(n, t, i) || t == n - FORMER_NUMBERS[i]
    ensures t == n - FORMER_NUMBERS[i] ==> !IsFormer(n, t, i) && (t == n - 1 || t == n - 3 || t == n - 6)
  {
  }

  lemma RaisingNext(h: History, n: nat, position: int, i: int)
    requires NonNegative(h) && 0 <= i < |FORMER_NUMBERS|
    ensures 1 <= FORMER_NUMBERS[i] <= 6
    ensures forall t, c | t < n :: Raising(h, n, position, i + 1)(t, c)
              == if t == n - FORMER_NUMBERS[i] && c == position
                 then Max(Raising(h, n, position, i)(t, c), SpreadBin(h, n, position))
                 else Raising(h, n, position, i)(t, c)
  {
    NextFormer(n, n, i);
    forall t, c | t < n ensures Raising(h, n, position, i + 1)(t, c)
              == if t == n - FORMER_NUMBERS[i] && c == position
                 then Max(Raising(h, n, position, i)(t, c), SpreadBin(h, n, position))
                 else Raising(h, n, position, i)(t, c)
    {
      NextFormer(n, t, i);
      if t == n - FORMER_NUMBERS[i] {
        SpreadGrows(h, n, t, c);
      }
    }
  }

  lemma RaisingEnds(h: History, n: nat, position: int)
    requires NonNegative(h)
    ensures forall t, c | t < n ::
              Raising(h, n, position, |FORMER_NUMBERS|)(t, c) == Raising(h, n, position + 1, 0)(t, c)
  {
    forall t, c | t < n
      ensures Raising(h, n, position, |FORMER_NUMBERS|)(t, c) == Raising(h, n, position + 1, 0)(t, c)
    {
      SpreadGrows(h, n, t, c);
    }
  }

  /** The first few of the conditions `ExceedsAcrossFrequency` puts on a candidate. */
  ghost predicate ExceedsFirstBins(h: History, p: int, b: int, count: int)
    requires 0 <= count <= |FREQUENCY_OFFSETS|
  {
    forall k | 0 <= k < count :: h(p, b) > Spread(h, p - 3, b + FREQUENCY_OFFSETS[k])
  }

  lemma ExceedsNextBin(h: History, p: int, b: int, count: int)
    requires 0 <= count < |FREQUENCY_OFFSETS|
    ensures ExceedsFirstBins(h, p, b, count + 1) <==>
              ExceedsFirstBins(h, p, b, count) && h(p, b) > Spread(h, p - 3, b + FREQUENCY_OFFSETS[count])
  {
  }

  /** The first few of the conditions `ExceedsAcrossTime` puts on a candidate. */
  ghost predicate ExceedsFirst(h: History, p: int, b: int, count: int)
    requires 0 <= count <= |TIME_OFFSETS|
  {
    forall k | 0 <= k < count :: h(p, b) > Spread(h, p + TIME_OFFSETS[k], b - 1)
  }

  lemma ExceedsNext(h: History, p: int, b: int, count: int)
    requires 0 <= count < |TIME_OFFSETS|
    ensures ExceedsFirst(h, p, b, count + 1) <==>
              ExceedsFirst(h, p, b, count) && h(p, b) > Spread(h, p + TIME_OFFSETS[count], b - 1)
  {
  }

  /** The peaks of all passes before p, and of pass p below a bin. */
  ghost function BandPeaksUpTo(h: History, fl: Floats, band: FrequencyBand, p: nat, end: nat): seq<FrequencyPeak> {
    BandPeaks(h, fl, band, p) + PassPeaks(h, fl, p, band, end)
  }

  ghost function SoundPeaksUpTo(h: History, fl: Floats, p: nat, end: nat): PeakMap {
    map band: FrequencyBand | BandPeaksUpTo(h, fl, band, p, end) != [] :: BandPeaksUpTo(h, fl, band, p, end)
  }

  /** What the entry for a band becomes when a peak is pushed to it. */
  function Pushed(peaks: PeakMap, band: FrequencyBand, peak: FrequencyPeak)
    : PeakMap
  {
    peaks[band := PeaksIn(peaks, band) + [peak]]
  }

  /** What one bin adds. */
  ghost function AfterBin(peaks: PeakMap, h: History, fl: Floats, p: nat, b: nat)
    : PeakMap
  {
    if IsPeak(h, p, b) && BandOf(BinAt(h, fl, p, b)).Some?
    then Pushed(peaks, BandOf(BinAt(h, fl, p, b)).value, PeakAt(h, fl, p, b))
    else peaks
  }

  lemma PassBegins(h: History, fl: Floats, p: nat)
    ensures SoundPeaksUpTo(h, fl, p, 10) == SoundPeaks(h, fl, p)
  {
    forall band: FrequencyBand ensures BandPeaksUpTo(h, fl, band, p, 10) == BandPeaks(h, fl, band, p) {
    }
  }

  lemma PassEnds(h: History, fl: Floats, p: nat)
    ensures SoundPeaksUpTo(h, fl, p, END_BIN) == SoundPeaks(h, fl, p + 1)
  {
    forall band: FrequencyBand ensures BandPeaksUpTo(h, fl, band, p, END_BIN) == BandPeaks(h, fl, band, p + 1) {
      assert PassesIn(h, fl, band, END_BIN)(p) == PassPeaks(h, fl, p, band, END_BIN);
    }
  }

  lemma BinAddsToItsBand(h: History, fl: Floats, p: nat, b: nat, band: FrequencyBand)
    requires b >= 10
    ensures BandPeaksUpTo(h, fl, band, p, b + 1)
         == BandPeaksUpTo(h, fl, band, p, b) + if StoredIn(h, fl, p, b, band) then [PeakAt(h, fl, p, b)] else []
  {
    assert FoundIn(h, fl, p, band)(b) == if StoredIn(h, fl, p, b, band) then Some(PeakAt(h, fl, p, b)) else None;
  }

  lemma BinAddsToTheMap(h: History, fl: Floats, p: nat, b: nat, band: FrequencyBand)
    requires b >= 10
    ensures var before, after := SoundPeaksUpTo(h, fl, p, b), SoundPeaksUpTo(h, fl, p, b + 1);
            && (band in after <==> band in AfterBin(before, h, fl, p, b))
            && (band in after ==> after[band] == AfterBin(before, h, fl, p, b)[band])
  {
    BinAddsToItsBand(h, fl, p, b, band);
  }

  lemma PassContinues(h: History, fl: Floats, p: nat, b: nat)
    requires b >= 10
    ensures SoundPeaksUpTo(h, fl, p, b + 1) == AfterBin(SoundPeaksUpTo(h, fl, p, b), h, fl, p, b)
  {
    var before, after := SoundPeaksUpTo(h, fl, p, b), SoundPeaksUpTo(h, fl, p, b + 1);
    var pushed := AfterBin(before, h, fl, p, b);
    forall band: FrequencyBand
      ensures (band in after <==> band in pushed) && (band in after ==> after[band] == pushed[band])
    {
      BinAddsToTheMap(h, fl, p, b, band);
    }
  }

  lemma NothingHeardYet(h: History, fl: Floats)
    requires forall t, c | t < 0 :: h(t, c) == 0.0
    ensures SoundPeaks(h, fl, 0) == map[]
    ensures forall t, c | t < 0 :: PartialSpread(h, 0, t, c) == 0.0
  {
  }

  /** A ring holds the last 2048 samples of the first n blocks. */
  ghost predicate RingHolds(ring: seq<int>, recording: seq<int>, n: nat) {
    && |ring| == SAMPLE_RING
    && forall i | BLOCK * n - WINDOW <= i < BLOCK * n :: ring[SampleSlot(i)] == Sample(recording, i)
  }

  /** A stretch of a ring replaced. */
  function Overwritten(ring: seq<int>, at: nat, chunk: seq<int>): seq<int>
    requires at + |chunk| <= |ring|
  {
    ring[..at] + chunk + ring[at + |chunk|..]
  }

  /** Once a block is in its place in the ring, the ring holds the samples that end with it. */
  lemma BlockLands(ring: seq<int>, chunk: seq<int>, recording: seq<int>, n: nat)
    requires RingHolds(ring, recording, n)
    requires BLOCK * (n + 1) <= |recording| && chunk == recording[BLOCK * n..BLOCK * (n + 1)]
    ensures SampleSlot(BLOCK * n) + BLOCK <= SAMPLE_RING
    ensures RingHolds(Overwritten(ring, SampleSlot(BLOCK * n), chunk), recording, n + 1)
  {
    BlockIsContiguous(n, 0);
    var after := Overwritten(ring, SampleSlot(BLOCK * n), chunk);
    forall i | BLOCK * (n + 1) - WINDOW <= i < BLOCK * (n + 1) ensures after[SampleSlot(i)] == Sample(recording, i) {
      if i < BLOCK * n {
        BlockKeepsOthers(n, i);
      } else {
        BlockIsContiguous(n, i - BLOCK * n);
      }
    }
  }

  class SignatureGenerator {
    const analysis: Analysis
    ghost const recording: seq<int>
    ghost const history: History

    const ringOfSamples: array<int>
    const reordered: array<real>
    const fftOutputs: array2<real>
    const spreadOutputs: array2<real>

    var sampleIndex: nat
    var fftIndex: nat
    var spreadIndex: nat
    var spreadsDone: nat
    var soundPeaks: PeakMap

    ghost predicate Shaped() {
      && NonNegative(history) && Audible(history) && analysis.floats.Lawful()
      && ringOfSamples.Length == SAMPLE_RING
      && reordered.Length == WINDOW
      && fftOutputs.Length0 == RING && fftOutputs.Length1 == LAST_BIN + 1
      && spreadOutputs.Length0 == RING && spreadOutputs.Length1 == LAST_BIN + 1
      && fftOutputs != spreadOutputs
    }

    /** The history the rings are held to is that of the recording. */
    ghost predicate Follows() {
      analysis.Lawful() && history == Spectra(analysis, recording)
    }

    /** The sample ring holds the last 2048 samples of the first n blocks. */
    ghost predicate SamplesHold(n: nat)
      requires Shaped()
      reads this`sampleIndex, ringOfSamples
    {
      && sampleIndex == SampleSlot(BLOCK * n)
      && RingHolds(ringOfSamples[..], recording, n)
    }

    /** The power ring holds the last 256 frames. */
    ghost predicate FramesHold(n: nat)
      requires Shaped()
      reads this`fftIndex, fftOutputs
    {
      && fftIndex == Slot(n)
      && forall t, c | n - RING <= t < n && 0 <= c <= LAST_BIN :: fftOutputs[Slot(t), c] == history(t, c)
    }

    /** The spread ring holds their spread spectra, as far as n frames take them. */
    ghost predicate SpreadsHold(n: nat)
      requires Shaped()
      reads this`spreadIndex, spreadOutputs
    {
      && spreadIndex == Slot(n)
      && forall t, c | n - RING <= t < n && 0 <= c <= LAST_BIN ::
           spreadOutputs[Slot(t), c] == PartialSpread(history, n, t, c)
    }

    /** Everything the generator knows after n blocks. */
    ghost predicate Heard(n: nat)
      reads this, ringOfSamples, fftOutputs, spreadOutputs
    {
      && Shaped() && Follows()
      && SamplesHold(n) && FramesHold(n) && SpreadsHold(n)
      && spreadsDone == n
      && soundPeaks == SoundPeaks(history, analysis.floats, Passes(n))
    }

    constructor (analysis: Analysis, ghost recording: seq<int>)
      requires analysis.Lawful()
      ensures this.analysis == analysis && this.recording == recording
      ensures Heard(0)
      ensures fresh(ringOfSamples) && fresh(reordered) && fresh(fftOutputs) && fresh(spreadOutputs)
    {
      this.analysis, this.recording, this.history := analysis, recording, Spectra(analysis, recording);
      ringOfSamples := new int[SAMPLE_RING](i => 0);
      reordered := new real[WINDOW](i => 0.0);
      fftOutputs := new real[RING, LAST_BIN + 1]((t, c) => 0.0);
      spreadOutputs := new real[RING, LAST_BIN + 1]((t, c) => 0.0);
      sampleIndex, fftIndex, spreadIndex, spreadsDone := 0, 0, 0, 0;
      soundPeaks := map[];
      new;
      SpectraAreAudible(analysis, recording);
      NothingHeardYet(history, analysis.floats);
    }

    /** Copies samples over a stretch of the ring. */
    method CopyFrom(at: nat, chunk: seq<int>)
      requires at + |chunk| <= ringOfSamples.Length
      modifies ringOfSamples
      ensures ringOfSamples[..] == Overwritten(old(ringOfSamples[..]), at, chunk)
    {
      forall k | 0 <= k < |chunk| {
        ringOfSamples[at + k] := chunk[k];
      }
    }

    /** Takes a block into the ring. */
    method TakeBlock(chunk: seq<int>, ghost n: nat)
      requires Shaped() && SamplesHold(n)
      requires BLOCK * (n + 1) <= |recording| && chunk == recording[BLOCK * n..BLOCK * (n + 1)]
      modifies this`sampleIndex, ringOfSamples
      ensures SamplesHold(n + 1)
    {
      BlockLands(ringOfSamples[..], chunk, recording, n);
      CopyFrom(sampleIndex, chunk);
      SampleSlotMoves(BLOCK * n, BLOCK);
      sampleIndex := SampleSlot(sampleIndex + BLOCK);
    }

    /** Unrolls the ring, oldest sample first, under the window table. */
    method Reorder(ghost n: nat)
      requires Shaped() && Follows() && SamplesHold(n)
      modifies reordered
      ensures reordered[..] == Window(analysis, recording, n)
    {
      ghost var window := Window(analysis, recording, n);
      for index := 0 to WINDOW
        invariant forall k | 0 <= k < index :: reordered[k] == window[k]
      {
        OldestFirst(n, index);
        var sample := ringOfSamples[SampleSlot(index + sampleIndex)];
        reordered[index] := Tapered(analysis.floats, sample, analysis.window[index]);
      }
    }

    lemma OldestFirst(n: nat, index: nat)
      requires Shaped() && SamplesHold(n) && index < WINDOW
      ensures ringOfSamples[SampleSlot(index + sampleIndex)] == Sample(recording, BLOCK * n - WINDOW + index)
    {
      SampleSlotMoves(BLOCK * n, index);
      WholeTurn(BLOCK * n + index);
      assert ringOfSamples[..][SampleSlot(BLOCK * n - WINDOW + index)] == Sample(recording, BLOCK * n - WINDOW + index);
    }

    method DoFft(chunk: seq<int>, ghost n: nat)
      requires Shaped() && Follows() && SamplesHold(n) && FramesHold(n)
      requires BLOCK * (n + 1) <= |recording| && chunk == recording[BLOCK * n..BLOCK * (n + 1)]
      modifies this`sampleIndex, this`fftIndex, ringOfSamples, reordered, fftOutputs
      ensures SamplesHold(n + 1) && FramesHold(n + 1)
      ensures reordered[..] == Window(analysis, recording, n + 1)
    {
      TakeBlock(chunk, n);
      Reorder(n + 1);
      StoreFrame(analysis.forward(reordered[..]), n);
    }

    /** Writes the power of each bin into the next slot of the power ring. */
    method StoreFrame(results: seq<Complex>, ghost n: nat)
      requires Shaped() && Follows() && FramesHold(n)
      requires results == analysis.forward(Window(analysis, recording, n + 1))
      modifies this`fftIndex, fftOutputs
      ensures FramesHold(n + 1)
    {
      assert |results| == LAST_BIN + 1;
      forall index | 0 <= index <= LAST_BIN {
        fftOutputs[fftIndex, index] := Power(analysis.floats, results[index]);
      }
      fftIndex := Slot(fftIndex + 1);
      SlotMoves(n, 1);
      forall t, c | n + 1 - RING <= t < n + 1 && 0 <= c <= LAST_BIN ensures fftOutputs[Slot(t), c] == history(t, c) {
        if t < n {
          SlotsDiffer(t, n);
        }
      }
    }

    /** Raises each bin of the current spread spectrum to the loudest of itself and the next two. */
    method SpreadAcrossBins(ghost n: nat)
      requires Shaped() && FramesHold(n + 1) && spreadIndex == Slot(n)
      modifies spreadOutputs
      ensures forall c | 0 <= c <= LAST_BIN :: spreadOutputs[spreadIndex, c] == SpreadBin(history, n, c)
      ensures forall t, c | 0 <= t < RING && t != spreadIndex && 0 <= c <= LAST_BIN ::
                spreadOutputs[t, c] == old(spreadOutputs[t, c])
    {
      var last := Slot(fftIndex - 1);
      SlotMoves(n + 1, -1);
      forall c | 0 <= c <= LAST_BIN {
        spreadOutputs[spreadIndex, c] := fftOutputs[last, c];
      }
      for position := 0 to LAST_BIN - 1
        invariant forall c | 0 <= c < position :: spreadOutputs[spreadIndex, c] == SpreadBin(history, n, c)
        invariant forall c | position <= c <= LAST_BIN :: spreadOutputs[spreadIndex, c] == history(n, c)
        invariant forall t, c | 0 <= t < RING && t != spreadIndex && 0 <= c <= LAST_BIN ::
                    spreadOutputs[t, c] == old(spreadOutputs[t, c])
      {
        spreadOutputs[spreadIndex, position] :=
          Max(Max(spreadOutputs[spreadIndex, position], spreadOutputs[spreadIndex, position + 1]),
              spreadOutputs[spreadIndex, position + 2]);
      }
    }

    /** The spread spectra of the frames before n are as the window says. */
    ghost predicate FormersHold(n: nat, window: History)
      requires Shaped()
      reads spreadOutputs
    {
      forall t, c | n - RING < t < n && 0 <= c <= LAST_BIN :: spreadOutputs[Slot(t), c] == window(t, c)
    }

    ghost predicate CurrentHolds(n: nat)
      requires Shaped()
      reads spreadOutputs
    {
      forall c | 0 <= c <= LAST_BIN :: spreadOutputs[Slot(n), c] == SpreadBin(history, n, c)
    }

    /** Raises one bin of the spread spectrum of one former frame. */
    method RaiseFormer(position: nat, value: real, back: int, ghost n: nat, ghost before: History, ghost after: History)
      requires Shaped() && position <= LAST_BIN && 1 <= back <= 6 && spreadIndex == Slot(n)
      requires FormersHold(n, before) && CurrentHolds(n)
      requires forall t, c | t < n ::
                 after(t, c) == if t == n - back && c == position then Max(before(t, c), value) else before(t, c)
      modifies spreadOutputs
      ensures FormersHold(n, after) && CurrentHolds(n)
    {
      ghost var former := n - back;
      SlotMoves(n, -back);
      SlotsDiffer(former, n);
      var slot := Slot(spreadIndex - back);
      spreadOutputs[slot, position] := Max(spreadOutputs[slot, position], value);

      forall t, c | n - RING < t < n && 0 <= c <= LAST_BIN ensures spreadOutputs[Slot(t), c] == after(t, c) {
        if t < former { SlotsDiffer(t, former); } else if former < t { SlotsDiffer(former, t); }
      }
    }

    method RaiseFormers(ghost n: nat)
      requires Shaped() && spreadIndex == Slot(n)
      requires FormersHold(n, Raising(history, n, 0, 0)) && CurrentHolds(n)
      modifies spreadOutputs
      ensures FormersHold(n, Raising(history, n, LAST_BIN + 1, 0)) && CurrentHolds(n)
    {
      var copy := seq(LAST_BIN + 1, c
                      requires 0 <= c <= LAST_BIN && Shaped() && spreadIndex < RING
                      reads this, spreadOutputs => spreadOutputs[spreadIndex, c]);
      for position := 0 to LAST_BIN + 1
        invariant FormersHold(n, Raising(history, n, position, 0)) && CurrentHolds(n)
      {
        for i := 0 to |FORMER_NUMBERS|
          invariant FormersHold(n, Raising(history, n, position, i)) && CurrentHolds(n)
        {
          RaisingNext(history, n, position, i);
          RaiseFormer(position, copy[position], FORMER_NUMBERS[i], n, Raising(history, n, position, i),
                      Raising(history, n, position, i + 1));
        }
        RaisingEnds(history, n, position);
      }
    }

    method DoPeakSpreading(ghost n: nat)
      requires Shaped() && FramesHold(n + 1) && SpreadsHold(n)
      modifies this`spreadIndex, spreadOutputs
      ensures SpreadsHold(n + 1)
    {
      SpreadAcrossBins(n);
      forall t, c | n - RING < t < n && 0 <= c <= LAST_BIN
        ensures spreadOutputs[Slot(t), c] == Raising(history, n, 0, 0)(t, c)
      {
        SlotsDiffer(t, n);
      }
      RaiseFormers(n);
      spreadIndex := Slot(spreadIndex + 1);
      SlotMoves(n, 1);
      forall t, c | n + 1 - RING <= t < n + 1 && 0 <= c <= LAST_BIN
        ensures spreadOutputs[Slot(t), c] == PartialSpread(history, n + 1, t, c)
      {
        SpreadGrows(history, n, t, c);
      }
    }

    /** A spread spectrum no later frame can raise is still in its slot. */
    lemma FinalSpread(n: nat, t: int, c: int)
      requires Shaped() && SpreadsHold(n) && n - RING <= t && t + 6 < n && 0 <= c <= LAST_BIN
      ensures spreadOutputs[Slot(t), c] == Spread(history, t, c)
    {
      SpreadsFinally(history, n, t, c);
    }

    /** The running maximum over the spread bins around a candidate, which it exceeds if it exceeds them all. */
    method LoudestAcrossFrequency(row: nat, b: nat, ghost p: int) returns (loudest: real)
      requires Shaped() && row < RING && 10 <= b <= 1014 && SpreadInRow(row, p - 3)
      ensures loudest < history(p, b) <==> 0.0 < history(p, b) && ExceedsAcrossFrequency(history, p, b)
    {
      loudest := 0.0;
      for i := 0 to |FREQUENCY_OFFSETS|
        invariant loudest < history(p, b) <==> 0.0 < history(p, b) && ExceedsFirstBins(history, p, b, i)
      {
        var neighbor := spreadOutputs[row, b + FREQUENCY_OFFSETS[i]];
        loudest := Max(loudest, neighbor);
        ExceedsNextBin(history, p, b, i);
      }
    }

    /** The same, carried on over the other frames' spread spectra. */
    method LoudestAcrossTime(loudestSoFar: real, b: nat, ghost n: nat) returns (loudest: real)
      requires Shaped() && SpreadsHold(n) && n >= 46 && 10 <= b <= 1014
      ensures loudest < history(n - 46, b)
         <==> loudestSoFar < history(n - 46, b) && ExceedsAcrossTime(history, n - 46, b)
    {
      ghost var p := n - 46;
      loudest := loudestSoFar;
      for i := 0 to |RAW_OFFSETS|
        invariant loudest < history(p, b) <==> loudestSoFar < history(p, b) && ExceedsFirst(history, p, b, i)
      {
        var other := ReadOther(b, i, n);
        loudest := Max(loudest, other);
        ExceedsNext(history, p, b, i);
      }
    }

    /** Reads the spread spectrum at one of the offsets, which is final by then. */
    method ReadOther(b: nat, i: nat, ghost n: nat) returns (other: real)
      requires Shaped() && SpreadsHold(n) && n >= 46 && 10 <= b <= 1014 && i < |RAW_OFFSETS|
      ensures other == Spread(history, n - 46 + TIME_OFFSETS[i], b - 1)
    {
      RawOffsetsReadBack(n, i);
      FinalSpread(n, n - 46 + TIME_OFFSETS[i], b - 1);
      other := spreadOutputs[Slot(spreadIndex + RAW_OFFSETS[i]), b - 1];
    }

    ghost predicate FrameInRow(row: nat, p: int)
      requires Shaped() && row < RING
      reads fftOutputs
    {
      forall c | 0 <= c <= LAST_BIN :: fftOutputs[row, c] == history(p, c)
    }

    ghost predicate SpreadInRow(row: nat, t: int)
      requires Shaped() && row < RING
      reads spreadOutputs
    {
      forall c | 0 <= c <= LAST_BIN :: spreadOutputs[row, c] == Spread(history, t, c)
    }

    /** Stores a recognised peak in the list of its band, if it falls in one. */
    method StorePeak(row: nat, b: nat, ghost p: nat)
      requires Shaped() && row < RING && spreadsDone == p + 46
      requires IsPeak(history, p, b)
      requires FrameInRow(row, p)
      modifies this`soundPeaks
      ensures soundPeaks == AfterBin(old(soundPeaks), history, analysis.floats, p, b)
    {
      var pass := spreadsDone - 46;
      var magnitude := analysis.floats.Magnitude(fftOutputs[row, b]);
      var magnitudeBefore := analysis.floats.Magnitude(fftOutputs[row, b - 1]);
      var magnitudeAfter := analysis.floats.Magnitude(fftOutputs[row, b + 1]);

      var corrected := CorrectedBin(b, analysis.floats.Lean(magnitudeBefore, magnitude, magnitudeAfter));

      PeakVariationIsNotNegative(history, analysis.floats, p, b);
      assert analysis.floats.Variation1(magnitudeBefore, magnitude, magnitudeAfter) >= 0.0;

      match BandOf(corrected)
      case None =>
      case Some(band) =>
        if band !in soundPeaks {
          soundPeaks := soundPeaks[band := []];
        }
        soundPeaks := soundPeaks[
          band := soundPeaks[band] + [FrequencyPeak(pass, Clamped(Truncated(magnitude), 0, U16_LIMIT - 1), corrected)]];
    }

    method RecogniseBin(row: nat, spreadRow: nat, b: nat, ghost n: nat)
      requires Shaped() && SpreadsHold(n) && spreadsDone == n >= 46
      requires row < RING && spreadRow < RING && 10 <= b <= 1014
      requires FrameInRow(row, n - 46) && SpreadInRow(spreadRow, n - 49)
      modifies this`soundPeaks
      ensures soundPeaks == AfterBin(old(soundPeaks), history, analysis.floats, n - 46, b)
    {
      if fftOutputs[row, b] >= THRESHOLD && fftOutputs[row, b] >= spreadOutputs[spreadRow, b - 1] {
        var loudest := LoudestAcrossFrequency(spreadRow, b, n - 46);
        if fftOutputs[row, b] > loudest {
          loudest := LoudestAcrossTime(loudest, b, n);
          if fftOutputs[row, b] > loudest {
            StorePeak(row, b, n - 46);
          }
        }
      }
    }

    /** The two rows a pass is read from. */
    method RowsOfPass(ghost n: nat) returns (row: nat, spreadRow: nat)
      requires Shaped() && FramesHold(n) && SpreadsHold(n)
      ensures row < RING && spreadRow < RING && FrameInRow(row, n - 46) && SpreadInRow(spreadRow, n - 49)
    {
      row, spreadRow := Slot(fftIndex - 46), Slot(spreadIndex - 49);
      SlotMoves(n, -46);
      SlotMoves(n, -49);
      forall c | 0 <= c <= LAST_BIN ensures spreadOutputs[spreadRow, c] == Spread(history, n - 49, c) {
        FinalSpread(n, n - 49, c);
      }
    }

    method DoPeakRecognition(ghost n: nat)
      requires Shaped() && FramesHold(n) && SpreadsHold(n) && spreadsDone == n >= 46
      requires soundPeaks == SoundPeaks(history, analysis.floats, n - 46)
      modifies this`soundPeaks
      ensures soundPeaks == SoundPeaks(history, analysis.floats, n - 45)
    {
      ghost var p: nat := n - 46;
      var row, spreadRow := RowsOfPass(n);
      PassBegins(history, analysis.floats, p);
      for b := 10 to END_BIN
        invariant soundPeaks == SoundPeaksUpTo(history, analysis.floats, p, b)
      {
        RecogniseBin(row, spreadRow, b, n);
        PassContinues(history, analysis.floats, p, b);
      }
      PassEnds(history, analysis.floats, p);
    }

    /** One block: a frame, its spreading, and from the 46th on the recognition of a pass. */
    method Process(chunk: seq<int>, ghost n: nat)
      requires Heard(n)
      requires BLOCK * (n + 1) <= |recording| && chunk == recording[BLOCK * n..BLOCK * (n + 1)]
      modifies this, ringOfSamples, reordered, fftOutputs, spreadOutputs
      ensures Heard(n + 1)
    {
      DoFft(chunk, n);
      DoPeakSpreading(n);
      spreadsDone := spreadsDone + 1;
      if spreadsDone >= 46 {
        DoPeakRecognition(n + 1);
      }
    }
  }

  /** The generator, run over every whole block of a buffer, computes its fingerprint. */
  method MakeSignatureFromBuffer(analysis: Analysis, buffer: seq<int>) returns (signature: DecodedSignature)
    requires analysis.Lawful()
    ensures signature == FingerprintOf(analysis, buffer)
  {
    var generator := new SignatureGenerator(analysis, buffer);
    var blocks := |buffer| / BLOCK;
    for n := 0 to blocks
      invariant generator.analysis == analysis && generator.recording == buffer
      invariant generator.Heard(n)
      invariant fresh(generator) && fresh(generator.ringOfSamples) && fresh(generator.reordered)
      invariant fresh(generator.fftOutputs) && fresh(generator.spreadOutputs)
    {
      generator.Process(buffer[BLOCK * n..BLOCK * (n + 1)], n);
    }
    signature := DecodedSignature(SAMPLE_RATE_HZ, |buffer| % U32_LIMIT, generator.soundPeaks);
  }
}
