/**
  What a recording's fingerprint is, as a function of its samples: spectra of overlapping
  windows, the peaks among them, and the peaks of each band in the order they are found.
 */
module Fingerprint {
  import opened Common
  import opened Rounding
  import opened Signature
  import opened Spectrogram
  import opened Interpolation

  const SAMPLE_RATE_HZ: u32 := 16000
  const BLOCK := 128
  const WINDOW := 2048

  /** The least power a bin is given: the float nearest a ten-thousand-millionth. */
  const FLOOR := 14411519.0 / 144115188075855872.0

  datatype Complex = Complex(re: real, im: real)

  /** The window table, the forward transform and the float arithmetic the generator is built on. */
  datatype Analysis = Analysis(window: seq<real>, forward: seq<real> -> seq<Complex>, floats: Floats) {

    /** All that is asked of them: sizes, silence transforming to silence, a rounding and a monotone logarithm. */
    ghost predicate Lawful() {
      && |window| == WINDOW
      && (forall x | |x| == WINDOW :: |forward(x)| == LAST_BIN + 1)
      && (forall x, c | |x| == WINDOW && 0 <= c <= LAST_BIN && (forall i | 0 <= i < WINDOW :: x[i] == 0.0) ::
            forward(x)[c] == Complex(0.0, 0.0))
      && floats.Lawful()
    }
  }

  /** Silence before the recording starts, and after it ends. */
  function Sample(samples: seq<int>, i: int): int {
    if 0 <= i < |samples| then samples[i] else 0
  }

  function Tapered(fl: Floats, sample: int, multiplier: real): real {
    fl.rounded(Product(sample as real, multiplier))
  }

  /** The last 2048 samples of the first `blocks` blocks, oldest first, under the window table. */
  ghost function Window(a: Analysis, samples: seq<int>, blocks: int): (w: seq<real>)
    requires a.Lawful()
    ensures |w| == WINDOW
  {
    seq(WINDOW, i requires 0 <= i < WINDOW =>
      Tapered(a.floats, Sample(samples, BLOCK * blocks - WINDOW + i), a.window[i]))
  }

  function Square(x: real): real {
    x * x
  }

  function Power(fl: Floats, z: Complex): real {
    Max(fl.rounded(fl.rounded(fl.rounded(Square(z.re)) + fl.rounded(Square(z.im))) / 131072.0), FLOOR)
  }

  ghost function FrameBin(a: Analysis, samples: seq<int>, t: int, c: int): real
    requires a.Lawful()
  {
    if t < 0 || c < 0 || c > LAST_BIN then 0.0 else Power(a.floats, a.forward(Window(a, samples, t + 1))[c])
  }

  ghost function Spectra(a: Analysis, samples: seq<int>): History
    requires a.Lawful()
  {
    (t: int, c: int) => FrameBin(a, samples, t, c)
  }

  /** The bin a peak is stored at. */
  function BinAt(h: History, fl: Floats, p: int, b: nat): u16 {
    CorrectedBin(b, fl.Lean(fl.Magnitude(h(p, b - 1)), fl.Magnitude(h(p, b)), fl.Magnitude(h(p, b + 1))))
  }

  function PeakAt(h: History, fl: Floats, p: nat, b: nat): FrequencyPeak {
    FrequencyPeak(p, Clamped(Truncated(fl.Magnitude(h(p, b))), 0, U16_LIMIT - 1), BinAt(h, fl, p, b))
  }

  predicate StoredIn(h: History, fl: Floats, p: nat, b: nat, band: FrequencyBand) {
    IsPeak(h, p, b) && BandOf(BinAt(h, fl, p, b)) == Some(band)
  }

  /** What one pass stores in one band, bin by bin. */
  function FoundIn(h: History, fl: Floats, p: nat, band: FrequencyBand): nat -> Option<FrequencyPeak> {
    (b: nat) => if StoredIn(h, fl, p, b, band) then Some(PeakAt(h, fl, p, b)) else None
  }

  /** What is found from bin 10 up to `end`, in order. */
  function Gathered(found: nat -> Option<FrequencyPeak>, end: nat): seq<FrequencyPeak> {
    if end <= 10 then []
    else Gathered(found, end - 1) + if found(end - 1).Some? then [found(end - 1).value] else []
  }

  /** The peaks of one pass in one band, from the bins below `end`. */
  function PassPeaks(h: History, fl: Floats, p: nat, band: FrequencyBand, end: nat): seq<FrequencyPeak> {
    Gathered(FoundIn(h, fl, p, band), end)
  }

  const END_BIN := 1015

  /** The peaks of every pass in one band, from the bins below `end`. */
  function PassesIn(h: History, fl: Floats, band: FrequencyBand, end: nat): nat -> seq<FrequencyPeak> {
    (p: nat) => PassPeaks(h, fl, p, band, end)
  }

  /** What the first so many passes found, in order. */
  function Collected(found: nat -> seq<FrequencyPeak>, passes: nat): seq<FrequencyPeak> {
    if passes == 0 then [] else Collected(found, passes - 1) + found(passes - 1)
  }

  /** The peaks of one band over the first so many passes. */
  function BandPeaks(h: History, fl: Floats, band: FrequencyBand, passes: nat): seq<FrequencyPeak> {
    Collected(PassesIn(h, fl, band, END_BIN), passes)
  }

  /** A band has an entry once it has a peak. */
  ghost function SoundPeaks(h: History, fl: Floats, passes: nat): PeakMap {
    map band: FrequencyBand | BandPeaks(h, fl, band, passes) != [] :: BandPeaks(h, fl, band, passes)
  }

  /** Recognition runs from the 46th block on, each time over the frame 46 blocks back. */
  function Passes(blocks: nat): nat {
    if blocks < 46 then 0 else blocks - 45
  }

  ghost function FingerprintOf(a: Analysis, samples: seq<int>): DecodedSignature
    requires a.Lawful()
  {
    DecodedSignature(SAMPLE_RATE_HZ, |samples| % U32_LIMIT,
                     SoundPeaks(Spectra(a, samples), a.floats, Passes(|samples| / BLOCK)))
  }

  // ---------------------------------------------------------------------------------------
  // Frames
  // ---------------------------------------------------------------------------------------

  /** Every bin of every frame of the recording has some power. */
  ghost predicate Audible(h: History) {
    forall t, c | 0 <= t && 0 <= c <= LAST_BIN :: h(t, c) > 0.0
  }

  lemma SpectraAreAudible(a: Analysis, samples: seq<int>)
    requires a.Lawful()
    ensures Audible(Spectra(a, samples))
  {
  }

  /** A frame is a function of the 2048 samples that end with its block. */
  lemma FrameIsLocal(a: Analysis, s: seq<int>, t: int, r: seq<int>, u: int)
    requires a.Lawful() && t >= 0 && u >= 0
    requires forall i | BLOCK * (t + 1) - WINDOW <= i < BLOCK * (t + 1) ::
               Sample(s, i) == Sample(r, i + BLOCK * (u - t))
    ensures forall c :: Spectra(a, s)(t, c) == Spectra(a, r)(u, c)
  {
    var w, v := Window(a, s, t + 1), Window(a, r, u + 1);
    forall i | 0 <= i < WINDOW ensures w[i] == v[i] {
      var j := BLOCK * (t + 1) - WINDOW + i;
      assert Sample(s, j) == Sample(r, j + BLOCK * (u - t));
      assert j + BLOCK * (u - t) == BLOCK * (u + 1) - WINDOW + i;
    }
    assert w == v;
  }

  lemma SilenceHasNoPower(fl: Floats)
    requires fl.Lawful()
    ensures Power(fl, Complex(0.0, 0.0)) == FLOOR < THRESHOLD
    ensures forall multiplier :: Tapered(fl, 0, multiplier) == 0.0
  {
    assert KeepsWhole(fl.rounded, F32_WHOLE, 0.0);
    assert Square(0.0) == 0.0;
    forall multiplier ensures Tapered(fl, 0, multiplier) == 0.0 {
      assert Product(0 as real, multiplier) == 0.0;
    }
  }

  lemma SilentFrame(a: Analysis, samples: seq<int>, t: int)
    requires a.Lawful()
    requires forall i | i < BLOCK * (t + 1) :: Sample(samples, i) == 0
    ensures forall c :: Spectra(a, samples)(t, c) < THRESHOLD
  {
    var w := Window(a, samples, t + 1);
    SilenceHasNoPower(a.floats);
    forall i | 0 <= i < WINDOW ensures w[i] == 0.0 {
      assert Sample(samples, BLOCK * (t + 1) - WINDOW + i) == 0;
    }
  }

  // ---------------------------------------------------------------------------------------
  // Order
  // ---------------------------------------------------------------------------------------

  /** The bin a stored peak was recognised at. */
  ghost predicate Origin(h: History, fl: Floats, x: FrequencyPeak, band: FrequencyBand, b: nat) {
    StoredIn(h, fl, x.pass, b, band) && x == PeakAt(h, fl, x.pass, b)
  }

  ghost predicate OriginsApart(h: History, fl: Floats, band: FrequencyBand, x: FrequencyPeak, b: nat,
                               y: FrequencyPeak, c: nat)
  {
    Origin(h, fl, x, band, b) && Origin(h, fl, y, band, c) && b + 11 <= c
  }

  /** From a later pass, or recognised at least eleven bins up in the same one. */
  ghost predicate FoundAfter(h: History, fl: Floats, band: FrequencyBand, x: FrequencyPeak, y: FrequencyPeak) {
    x.pass < y.pass || (x.pass == y.pass && exists b: nat, c: nat :: OriginsApart(h, fl, band, x, b, y, c))
  }

  ghost predicate AllFoundInOrder(h: History, fl: Floats, band: FrequencyBand, peaks: seq<FrequencyPeak>) {
    forall i, j | 0 <= i < j < |peaks| :: FoundAfter(h, fl, band, peaks[i], peaks[j])
  }

  lemma JoinedInOrder(h: History, fl: Floats, band: FrequencyBand, front: seq<FrequencyPeak>, back: seq<FrequencyPeak>)
    requires AllFoundInOrder(h, fl, band, front) && AllFoundInOrder(h, fl, band, back)
    requires forall x, y | x in front && y in back :: FoundAfter(h, fl, band, x, y)
    ensures AllFoundInOrder(h, fl, band, front + back)
  {
  }

  lemma {:induction false} GatheredAreFound(found: nat -> Option<FrequencyPeak>, end: nat)
    ensures forall x | x in Gathered(found, end) :: exists b: nat :: b < end && found(b) == Some(x)
  {
    if end > 10 {
      GatheredAreFound(found, end - 1);
    }
  }

  lemma PassPeaksHaveOrigins(h: History, fl: Floats, p: nat, band: FrequencyBand, end: nat)
    ensures forall x | x in PassPeaks(h, fl, p, band, end) ::
              x.pass == p && exists b: nat :: b < end && Origin(h, fl, x, band, b)
  {
    GatheredAreFound(FoundIn(h, fl, p, band), end);
    forall x | x in PassPeaks(h, fl, p, band, end)
      ensures x.pass == p && exists b: nat :: b < end && Origin(h, fl, x, band, b)
    {
      var b: nat :| b < end && FoundIn(h, fl, p, band)(b) == Some(x);
      assert Origin(h, fl, x, band, b);
    }
  }

  lemma FoundElevenApart(h: History, fl: Floats, band: FrequencyBand, x: FrequencyPeak, b: nat, y: FrequencyPeak,
                         c: nat)
    requires Origin(h, fl, x, band, b) && Origin(h, fl, y, band, c) && x.pass == y.pass && b < c
    ensures OriginsApart(h, fl, band, x, b, y, c)
  {
    PeaksKeepApart(h, x.pass, b, y.pass, c);
  }

  lemma NextIsFoundAfter(h: History, fl: Floats, p: nat, band: FrequencyBand, x: FrequencyPeak, c: nat)
    requires x in PassPeaks(h, fl, p, band, c) && StoredIn(h, fl, p, c, band)
    ensures FoundAfter(h, fl, band, x, PeakAt(h, fl, p, c))
  {
    PassPeaksHaveOrigins(h, fl, p, band, c);
    var b: nat :| b < c && Origin(h, fl, x, band, b);
    FoundElevenApart(h, fl, band, x, b, PeakAt(h, fl, p, c), c);
  }

  lemma AllFoundBefore(h: History, fl: Floats, p: nat, band: FrequencyBand, c: nat)
    requires StoredIn(h, fl, p, c, band)
    ensures forall x | x in PassPeaks(h, fl, p, band, c) :: FoundAfter(h, fl, band, x, PeakAt(h, fl, p, c))
  {
    forall x | x in PassPeaks(h, fl, p, band, c) ensures FoundAfter(h, fl, band, x, PeakAt(h, fl, p, c)) {
      NextIsFoundAfter(h, fl, p, band, x, c);
    }
  }

  lemma {:induction false} PassPeaksAreInOrder(h: History, fl: Floats, p: nat, band: FrequencyBand, end: nat)
    ensures AllFoundInOrder(h, fl, band, PassPeaks(h, fl, p, band, end))
  {
    if end > 10 {
      PassPeaksAreInOrder(h, fl, p, band, end - 1);
      if StoredIn(h, fl, p, end - 1, band) {
        AllFoundBefore(h, fl, p, band, end - 1);
        JoinedInOrder(h, fl, band, PassPeaks(h, fl, p, band, end - 1), [PeakAt(h, fl, p, end - 1)]);
      }
    }
  }

  ghost predicate FromOnePass(peaks: seq<FrequencyPeak>, p: nat) {
    forall x | x in peaks :: x.pass == p
  }

  lemma {:induction false} CollectedAreBelow(found: nat -> seq<FrequencyPeak>, passes: nat)
    requires forall p: nat | p < passes :: FromOnePass(found(p), p)
    ensures forall x | x in Collected(found, passes) :: x.pass < passes && x in found(x.pass)
  {
    if passes > 0 {
      CollectedAreBelow(found, passes - 1);
      assert FromOnePass(found(passes - 1), passes - 1);
    }
  }

  lemma {:induction false} CollectedAreInOrder(h: History, fl: Floats, band: FrequencyBand,
                                               found: nat -> seq<FrequencyPeak>, passes: nat)
    requires forall p: nat | p < passes :: FromOnePass(found(p), p) && AllFoundInOrder(h, fl, band, found(p))
    ensures AllFoundInOrder(h, fl, band, Collected(found, passes))
  {
    if passes > 0 {
      CollectedAreInOrder(h, fl, band, found, passes - 1);
      CollectedAreBelow(found, passes - 1);
      assert FromOnePass(found(passes - 1), passes - 1);
      JoinedInOrder(h, fl, band, Collected(found, passes - 1), found(passes - 1));
    }
  }

  lemma PassPeaksAreFromOnePass(h: History, fl: Floats, band: FrequencyBand, end: nat)
    ensures forall p: nat :: FromOnePass(PassesIn(h, fl, band, end)(p), p)
  {
    forall p: nat ensures FromOnePass(PassesIn(h, fl, band, end)(p), p) {
      PassPeaksHaveOrigins(h, fl, p, band, end);
    }
  }

  lemma CollectedPassesAreInOrder(h: History, fl: Floats, band: FrequencyBand, end: nat, passes: nat)
    ensures AllFoundInOrder(h, fl, band, Collected(PassesIn(h, fl, band, end), passes))
    ensures forall x | x in Collected(PassesIn(h, fl, band, end), passes) ::
              x.pass < passes && exists b: nat :: Origin(h, fl, x, band, b)
  {
    var found := PassesIn(h, fl, band, end);
    PassPeaksAreFromOnePass(h, fl, band, end);
    forall p: nat ensures AllFoundInOrder(h, fl, band, found(p)) {
      PassPeaksAreInOrder(h, fl, p, band, end);
    }
    CollectedAreInOrder(h, fl, band, found, passes);
    CollectedAreBelow(found, passes);
    forall x | x in Collected(found, passes) ensures exists b: nat :: Origin(h, fl, x, band, b) {
      PassPeaksHaveOrigins(h, fl, x.pass, band, end);
    }
  }

  /**
    The peaks of a band come in ascending pass and, within a pass, from bins at least eleven
    apart; each was recognised in a pass that has run, and belongs to the band.
   */
  lemma BandPeaksAreInOrder(h: History, fl: Floats, band: FrequencyBand, passes: nat)
    ensures AllFoundInOrder(h, fl, band, BandPeaks(h, fl, band, passes))
    ensures forall x | x in BandPeaks(h, fl, band, passes) ::
              x.pass < passes && BandOf(x.bin) == Some(band) && exists b: nat :: Origin(h, fl, x, band, b)
  {
    CollectedPassesAreInOrder(h, fl, band, END_BIN, passes);
  }

  // ---------------------------------------------------------------------------------------
  // Stored bins
  // ---------------------------------------------------------------------------------------

  lemma PeakMagnitudes(h: History, fl: Floats, p: nat, b: nat)
    requires Audible(h) && fl.Lawful() && IsPeak(h, p, b)
    ensures fl.AtPeak(fl.Magnitude(h(p, b - 1)), fl.Magnitude(h(p, b)), fl.Magnitude(h(p, b + 1)))
  {
    PeakIsStrictLocalMaximum(h, p, b);
    assert h(p, b - 1) < h(p, b) && h(p, b + 1) < h(p, b);
    MagnitudesAreAtPeak(fl, h(p, b - 1), h(p, b), h(p, b + 1));
  }

  /** The assertion on every peak holds. */
  lemma PeakVariationIsNotNegative(h: History, fl: Floats, p: nat, b: nat)
    requires Audible(h) && fl.Lawful() && IsPeak(h, p, b)
    ensures fl.Variation1(fl.Magnitude(h(p, b - 1)), fl.Magnitude(h(p, b)), fl.Magnitude(h(p, b + 1))) >= 0.0
  {
    PeakMagnitudes(h, fl, p, b);
    VariationIsNotNegative(fl, fl.Magnitude(h(p, b - 1)), fl.Magnitude(h(p, b)), fl.Magnitude(h(p, b + 1)));
  }

  /** A peak whose magnitude overshoots, as those of its neighbours have it. */
  predicate OvershootsAt(h: History, fl: Floats, p: nat, b: nat) {
    IsPeak(h, p, b) && fl.Overshoots(fl.Magnitude(h(p, b - 1)), fl.Magnitude(h(p, b)), fl.Magnitude(h(p, b + 1)))
  }

  /** A peak is stored within half a bin of where it was recognised, or a whole one to the right if it overshoots. */
  lemma PeakBinIsClose(h: History, fl: Floats, x: FrequencyPeak, band: FrequencyBand, b: nat)
    requires Audible(h) && fl.Lawful() && Origin(h, fl, x, band, b)
    ensures 64 * b - 32 <= x.bin <= 64 * b + 64
    ensures x.bin <= 64 * b + 32 <==> !OvershootsAt(h, fl, x.pass, b)
  {
    PeakMagnitudes(h, fl, x.pass, b);
    CorrectedBinIsWithinHalfABinIff(fl, fl.Magnitude(h(x.pass, b - 1)), fl.Magnitude(h(x.pass, b)),
                                    fl.Magnitude(h(x.pass, b + 1)), b);
  }

  /** Later pass, or at least so far up in the same one. */
  predicate WellApart(x: FrequencyPeak, y: FrequencyPeak, spacing: nat) {
    x.pass < y.pass || (x.pass == y.pass && x.bin + spacing <= y.bin)
  }

  predicate AllWellApart(peaks: seq<FrequencyPeak>, spacing: nat) {
    forall i, j | 0 <= i < j < |peaks| :: WellApart(peaks[i], peaks[j], spacing)
  }

  /** No peak of the first so many passes overshoots. */
  ghost predicate NoneOvershoots(h: History, fl: Floats, passes: nat) {
    forall p: nat, b: nat | p < passes :: !OvershootsAt(h, fl, p, b)
  }

  lemma OriginsAreStoredApart(h: History, fl: Floats, band: FrequencyBand, x: FrequencyPeak, b: nat,
                              y: FrequencyPeak, c: nat)
    requires Audible(h) && fl.Lawful() && OriginsApart(h, fl, band, x, b, y, c)
    ensures x.bin + 608 <= y.bin
    ensures !OvershootsAt(h, fl, x.pass, b) ==> x.bin + 640 <= y.bin
  {
    PeakBinIsClose(h, fl, x, band, b);
    PeakBinIsClose(h, fl, y, band, c);
  }

  lemma FoundAfterIsWellApart(h: History, fl: Floats, band: FrequencyBand, x: FrequencyPeak, y: FrequencyPeak,
                              passes: nat)
    requires Audible(h) && fl.Lawful() && FoundAfter(h, fl, band, x, y) && x.pass < passes
    ensures WellApart(x, y, 608)
    ensures NoneOvershoots(h, fl, passes) ==> WellApart(x, y, 640)
  {
    if x.pass == y.pass {
      var b: nat, c: nat :| OriginsApart(h, fl, band, x, b, y, c);
      OriginsAreStoredApart(h, fl, band, x, b, y, c);
    }
  }

  /**
    The peaks of a band ascend by pass, and within one are stored at least nine and a half bins apart;
    ten, unless one overshoots.
   */
  lemma BandPeaksAreWellApart(h: History, fl: Floats, band: FrequencyBand, passes: nat)
    requires Audible(h) && fl.Lawful()
    ensures AllWellApart(BandPeaks(h, fl, band, passes), 608)
    ensures NoneOvershoots(h, fl, passes) ==> AllWellApart(BandPeaks(h, fl, band, passes), 640)
  {
    var peaks := BandPeaks(h, fl, band, passes);
    BandPeaksAreInOrder(h, fl, band, passes);
    forall i, j | 0 <= i < j < |peaks|
      ensures WellApart(peaks[i], peaks[j], 608)
      ensures NoneOvershoots(h, fl, passes) ==> WellApart(peaks[i], peaks[j], 640)
    {
      assert peaks[i] in peaks && FoundAfter(h, fl, band, peaks[i], peaks[j]);
      FoundAfterIsWellApart(h, fl, band, peaks[i], peaks[j], passes);
    }
  }

  /** How far apart in time two peaks cannot share a bin or be in neighbouring ones. */
  predicate LooksAcross(passes: nat) {
    passes == 1 || passes == 2 || (4 <= passes <= 45 && (passes % 7 == 0 || passes % 7 == 3 || passes % 7 == 4))
  }

  /** Far apart in one pass, far or at one bin three passes apart, near at the distances each looks across. */
  predicate StoredApart(x: FrequencyPeak, y: FrequencyPeak, sameBin: bool, far: nat, near: nat)
    requires x.pass <= y.pass
  {
    && (x.pass == y.pass ==> x.bin + far <= y.bin || y.bin + far <= x.bin)
    && (y.pass == x.pass + 3 ==> sameBin || x.bin + far <= y.bin || y.bin + far <= x.bin)
    && (LooksAcross(y.pass - x.pass) ==> x.bin + near <= y.bin || y.bin + near <= x.bin)
  }

  lemma NotExcludedIsStoredApart(x: FrequencyPeak, b: nat, y: FrequencyPeak, c: nat)
    requires x.pass <= y.pass && !Excluded(y.pass - x.pass, c - b) && (x.pass == y.pass ==> b != c)
    requires 64 * b - 32 <= x.bin <= 64 * b + 64 && 64 * c - 32 <= y.bin <= 64 * c + 64
    ensures StoredApart(x, y, b == c, 608, 32)
    ensures (if b < c then x.bin <= 64 * b + 32 else y.bin <= 64 * c + 32) ==> StoredApart(x, y, b == c, 640, 64)
  {
  }

  lemma BandPeakHasOrigin(a: Analysis, samples: seq<int>, band: FrequencyBand, x: FrequencyPeak) returns (b: nat)
    requires a.Lawful() && x in PeaksIn(FingerprintOf(a, samples).soundPeaks, band)
    ensures x.pass < Passes(|samples| / BLOCK) && Origin(Spectra(a, samples), a.floats, x, band, b)
  {
    BandPeaksAreInOrder(Spectra(a, samples), a.floats, band, Passes(|samples| / BLOCK));
    b :| Origin(Spectra(a, samples), a.floats, x, band, b);
  }

  lemma OriginsKeepApart(h: History, fl: Floats, bandX: FrequencyBand, x: FrequencyPeak, b: nat,
                         bandY: FrequencyBand, y: FrequencyPeak, c: nat)
    requires Origin(h, fl, x, bandX, b) && Origin(h, fl, y, bandY, c) && x != y && x.pass <= y.pass
    ensures !Excluded(y.pass - x.pass, c - b) && (x.pass == y.pass ==> b != c)
  {
    PeaksKeepApart(h, x.pass, b, y.pass, c);
  }

  /**
    Any two peaks of a signature, of whichever bands, were recognised at a distance no two peaks
    are excluded from, and are stored at least half a bin less apart; no less, unless the lower overshoots.
   */
  lemma StoredPeaksKeepApart(a: Analysis, samples: seq<int>, bandX: FrequencyBand, x: FrequencyPeak,
                             bandY: FrequencyBand, y: FrequencyPeak)
    returns (b: nat, c: nat)
    requires a.Lawful() && x.pass <= y.pass && x != y
    requires x in PeaksIn(FingerprintOf(a, samples).soundPeaks, bandX)
    requires y in PeaksIn(FingerprintOf(a, samples).soundPeaks, bandY)
    ensures Origin(Spectra(a, samples), a.floats, x, bandX, b) && Origin(Spectra(a, samples), a.floats, y, bandY, c)
    ensures !Excluded(y.pass - x.pass, c - b)
    ensures StoredApart(x, y, b == c, 608, 32)
    ensures var h := Spectra(a, samples);
            (if b < c then !OvershootsAt(h, a.floats, x.pass, b) else !OvershootsAt(h, a.floats, y.pass, c))
              ==> StoredApart(x, y, b == c, 640, 64)
  {
    b := BandPeakHasOrigin(a, samples, bandX, x);
    c := BandPeakHasOrigin(a, samples, bandY, y);
    SpectraAreAudible(a, samples);
    OriginsKeepApart(Spectra(a, samples), a.floats, bandX, x, b, bandY, y, c);
    PeakBinIsClose(Spectra(a, samples), a.floats, x, bandX, b);
    PeakBinIsClose(Spectra(a, samples), a.floats, y, bandY, c);
    NotExcludedIsStoredApart(x, b, y, c);
  }

  lemma StoredMagnitudesKeepOrder(m: real, n: real)
    requires 6167.0 <= m <= n
    ensures 6167 <= Clamped(Truncated(m), 0, U16_LIMIT - 1) <= Clamped(Truncated(n), 0, U16_LIMIT - 1)
  {
  }

  /** A louder bin is stored with no less a magnitude, and the least stored is that of a logarithm of 1/64. */
  lemma LouderIsStoredHigher(h: History, fl: Floats, p: nat, b: nat, q: nat, c: nat)
    requires fl.Lawful() && 0.0 < h(p, b) <= h(q, c)
    ensures 6167 <= PeakAt(h, fl, p, b).magnitude <= PeakAt(h, fl, q, c).magnitude
  {
    MagnitudeIsMonotone(fl, h(p, b), h(q, c));
    LeastMagnitude(fl, h(p, b));
    StoredMagnitudesKeepOrder(fl.Magnitude(h(p, b)), fl.Magnitude(h(q, c)));
  }
}
