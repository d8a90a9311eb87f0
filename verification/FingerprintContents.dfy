/** That a fingerprint lists every peak there is, with what is stored of it, and what power a bin has. */
module FingerprintContents {
  import opened Common
  import opened Rounding
  import opened Signature
  import opened Spectrogram
  import opened Interpolation
  import opened Fingerprint

  // ---------------------------------------------------------------------------------------
  // Lists
  // ---------------------------------------------------------------------------------------

  lemma {:induction false} GatheredHas(found: nat -> Option<FrequencyPeak>, end: nat, b: nat)
    requires 10 <= b < end && found(b).Some?
    ensures found(b).value in Gathered(found, end)
  {
    if b < end - 1 {
      GatheredHas(found, end - 1, b);
    }
  }

  lemma {:induction false} CollectedHas(found: nat -> seq<FrequencyPeak>, passes: nat, p: nat, x: FrequencyPeak)
    requires p < passes && x in found(p)
    ensures x in Collected(found, passes)
  {
    if p < passes - 1 {
      CollectedHas(found, passes - 1, p, x);
    }
  }

  lemma StoredIsInPasses(h: History, fl: Floats, band: FrequencyBand, end: nat, passes: nat, p: nat, b: nat)
    requires 1015 <= end && p < passes && StoredIn(h, fl, p, b, band)
    ensures PeakAt(h, fl, p, b) in Collected(PassesIn(h, fl, band, end), passes)
  {
    GatheredHas(FoundIn(h, fl, p, band), end, b);
    CollectedHas(PassesIn(h, fl, band, end), passes, p, PeakAt(h, fl, p, b));
  }

  lemma StoredIsInBand(h: History, fl: Floats, band: FrequencyBand, passes: nat, p: nat, b: nat)
    requires p < passes && StoredIn(h, fl, p, b, band)
    ensures PeakAt(h, fl, p, b) in BandPeaks(h, fl, band, passes)
  {
    StoredIsInPasses(h, fl, band, END_BIN, passes, p, b);
  }

  lemma InBandIff(h: History, fl: Floats, band: FrequencyBand, passes: nat, x: FrequencyPeak)
    ensures x in BandPeaks(h, fl, band, passes) <==> x.pass < passes && exists b: nat :: Origin(h, fl, x, band, b)
  {
    BandPeaksAreInOrder(h, fl, band, passes);
    if x.pass < passes {
      forall b: nat | Origin(h, fl, x, band, b) ensures x in BandPeaks(h, fl, band, passes) {
        StoredIsInBand(h, fl, band, passes, x.pass, b);
      }
    }
  }

  /** A band lists exactly the peaks recognised in the passes that have run and stored at a bin of the band. */
  lemma ListedIff(a: Analysis, samples: seq<int>, band: FrequencyBand, x: FrequencyPeak)
    requires a.Lawful()
    ensures x in PeaksIn(FingerprintOf(a, samples).soundPeaks, band)
       <==> x.pass + 46 <= |samples| / 128 && exists b: nat :: Origin(Spectra(a, samples), a.floats, x, band, b)
    ensures band in FingerprintOf(a, samples).soundPeaks <==> PeaksIn(FingerprintOf(a, samples).soundPeaks, band) != []
  {
    InBandIff(Spectra(a, samples), a.floats, band, Passes(|samples| / BLOCK), x);
  }

  lemma StoredMagnitude(h: History, fl: Floats, p: nat, b: nat)
    requires fl.Lawful()
    ensures var x, magnitude := PeakAt(h, fl, p, b), fl.Magnitude(h(p, b));
            if magnitude < 65536.0 then x.magnitude as real <= magnitude < x.magnitude as real + 1.0
            else x.magnitude == 65535
  {
    LeastMagnitude(fl, h(p, b));
  }

  lemma RecognisedIsListed(a: Analysis, samples: seq<int>, p: nat, b: nat, band: FrequencyBand)
    requires a.Lawful() && p + 46 <= |samples| / 128 && StoredIn(Spectra(a, samples), a.floats, p, b, band)
    ensures PeakAt(Spectra(a, samples), a.floats, p, b) in PeaksIn(FingerprintOf(a, samples).soundPeaks, band)
  {
    StoredIsInBand(Spectra(a, samples), a.floats, band, Passes(|samples| / BLOCK), p, b);
  }

  /** Every bin that dominates its neighbourhood is listed in its band: its pass, its magnitude truncated, its bin. */
  lemma EveryPeakIsListed(a: Analysis, samples: seq<int>, p: nat, b: nat, band: FrequencyBand)
    returns (x: FrequencyPeak)
    requires a.Lawful() && p + 46 <= |samples| / 128
    requires 10 <= b <= 1014 && Dominates(Spectra(a, samples), p, b)
    requires BandOf(BinAt(Spectra(a, samples), a.floats, p, b)) == Some(band)
    ensures x in PeaksIn(FingerprintOf(a, samples).soundPeaks, band)
    ensures x.pass == p && x.bin == BinAt(Spectra(a, samples), a.floats, p, b)
    ensures var magnitude := a.floats.Magnitude(Spectra(a, samples)(p, b));
            if magnitude < 65536.0 then x.magnitude as real <= magnitude < x.magnitude as real + 1.0
            else x.magnitude == 65535
  {
    x := PeakAt(Spectra(a, samples), a.floats, p, b);
    DominantIsPeak(Spectra(a, samples), p, b);
    RecognisedIsListed(a, samples, p, b, band);
    StoredMagnitude(Spectra(a, samples), a.floats, p, b);
  }

  /** The rate a signature declares is that of its samples, and their count is theirs. */
  lemma SamplesAreCounted(a: Analysis, samples: seq<int>)
    requires a.Lawful()
    ensures FingerprintOf(a, samples).sampleRateHz == 16000
    ensures |samples| < 0x1_0000_0000 ==> FingerprintOf(a, samples).numberSamples == |samples|
  {
  }

  /** Where the logarithm is at most 1/64, the magnitude stored is 6167, however quiet the bin. */
  lemma QuietestMagnitude(h: History, fl: Floats, p: nat, b: nat)
    requires fl.Lawful() && fl.ln(h(p, b)) <= 1.0 / 64.0
    ensures PeakAt(h, fl, p, b).magnitude == 6167
  {
    var scaled := 1.0 / 64.0 * SLOPE;
    assert IsNearStep(fl.rounded, scaled) && IsNearStep(fl.rounded, fl.rounded(scaled) + 6144.0);
    StoredMagnitude(h, fl, p, b);
  }

  // ---------------------------------------------------------------------------------------
  // Windows
  // ---------------------------------------------------------------------------------------

  lemma WholeIsKeptEitherWay(fl: Floats, n: int)
    requires fl.Lawful() && -0x100_0000 <= n <= 0x100_0000
    ensures fl.rounded(n as real) == n as real
  {
    WholeBoundsAreKept(fl.rounded, F32_WHOLE, n as real, if n < 0 then -n else n);
  }

  /** Under a table of ones, a window is the 2048 samples up to the end of its block, oldest first. */
  lemma FlatWindowIsTheStretch(a: Analysis, samples: seq<int>, blocks: nat)
    requires a.Lawful() && 16 <= blocks && 128 * blocks <= |samples|
    requires forall i | 0 <= i < 2048 :: a.window[i] == 1.0
    requires forall i | 0 <= i < |samples| :: -0x8000 <= samples[i] < 0x8000
    ensures forall i | 0 <= i < 2048 :: Window(a, samples, blocks)[i] == samples[128 * blocks - 2048..][i] as real
  {
    forall i | 0 <= i < 2048 ensures Window(a, samples, blocks)[i] == samples[128 * blocks - 2048..][i] as real {
      var sample := samples[128 * blocks - 2048 + i];
      WholeIsKeptEitherWay(a.floats, sample);
      assert Product(sample as real, 1.0) == sample as real;
    }
  }

  /** And that of nothing but ones is the table, in its own order. */
  lemma WindowOfOnesIsTheTable(a: Analysis, samples: seq<int>, blocks: nat)
    requires a.Lawful() && 16 <= blocks && 128 * blocks <= |samples|
    requires forall i | 0 <= i < |samples| :: samples[i] == 1
    requires forall i | 0 <= i < 2048 :: a.floats.rounded(a.window[i]) == a.window[i]
    ensures Window(a, samples, blocks) == a.window
  {
    forall i | 0 <= i < 2048 ensures Window(a, samples, blocks)[i] == a.window[i] {
      assert Product(1 as real, a.window[i]) == a.window[i];
    }
  }

  lemma TaperedIsFloat(fl: Floats, sample: int, multiplier: real)
    requires fl.Lawful()
    ensures fl.rounded(Tapered(fl, sample, multiplier)) == Tapered(fl, sample, multiplier)
  {
    assert KeepsRounded(fl.rounded, Product(sample as real, multiplier));
  }

  /** What goes into the transform, and what comes of it, are floats. */
  lemma WindowsAndPowersAreFloats(a: Analysis, samples: seq<int>, blocks: nat, i: nat, z: Complex)
    requires a.Lawful() && i < 2048
    ensures a.floats.rounded(Window(a, samples, blocks)[i]) == Window(a, samples, blocks)[i]
    ensures a.floats.rounded(Power(a.floats, z)) == Power(a.floats, z) || Power(a.floats, z) == FLOOR
  {
    var fl := a.floats;
    TaperedIsFloat(fl, Sample(samples, BLOCK * blocks - WINDOW + i), a.window[i]);
    assert KeepsRounded(fl.rounded, fl.rounded(fl.rounded(Square(z.re)) + fl.rounded(Square(z.im))) / 131072.0);
  }

  // ---------------------------------------------------------------------------------------
  // Powers
  // ---------------------------------------------------------------------------------------

  function Abs(x: real): real {
    if x < 0.0 then -x else x
  }

  lemma SquaresKeepOrder(x: real, y: real)
    requires Abs(x) <= Abs(y)
    ensures 0.0 <= Square(x) <= Square(y)
  {
    var u, v := Abs(x), Abs(y);
    assert Square(x) == u * u && Square(y) == v * v;
    if u < v {
      Scaled(u, v, v);
      if u > 0.0 {
        Scaled(u, v, u);
      }
    }
  }

  lemma SumsKeepOrder(fl: Floats, p: real, q: real, u: real, v: real)
    requires fl.Lawful() && p <= u && q <= v
    ensures fl.rounded(fl.rounded(p) + fl.rounded(q)) <= fl.rounded(fl.rounded(u) + fl.rounded(v))
  {
    assert KeepsOrder(fl.rounded, p, u) && KeepsOrder(fl.rounded, q, v);
    assert KeepsOrder(fl.rounded, fl.rounded(p) + fl.rounded(q), fl.rounded(u) + fl.rounded(v));
  }

  /** Power does not fall as either part of the transform grows in size. */
  lemma PowerKeepsOrder(fl: Floats, z: Complex, w: Complex)
    requires fl.Lawful() && Abs(z.re) <= Abs(w.re) && Abs(z.im) <= Abs(w.im)
    ensures Power(fl, z) <= Power(fl, w)
  {
    SquaresKeepOrder(z.re, w.re);
    SquaresKeepOrder(z.im, w.im);
    SumsKeepOrder(fl, Square(z.re), Square(z.im), Square(w.re), Square(w.im));
    var x := fl.rounded(fl.rounded(Square(z.re)) + fl.rounded(Square(z.im)));
    var y := fl.rounded(fl.rounded(Square(w.re)) + fl.rounded(Square(w.im)));
    assert x / 131072.0 <= y / 131072.0;
    assert KeepsOrder(fl.rounded, x / 131072.0, y / 131072.0);
  }

  /** Nor does it tell one part from the other, or either from its negative. */
  lemma PowerIsOfSizes(fl: Floats, z: Complex, w: Complex)
    requires fl.Lawful()
    requires || (Abs(z.re) == Abs(w.re) && Abs(z.im) == Abs(w.im))
             || (Abs(z.re) == Abs(w.im) && Abs(z.im) == Abs(w.re))
    ensures Power(fl, z) == Power(fl, w)
  {
    var swapped := Complex(w.im, w.re);
    assert Power(fl, swapped) == Power(fl, w);
    var like := if Abs(z.re) == Abs(w.re) && Abs(z.im) == Abs(w.im) then w else swapped;
    PowerKeepsOrder(fl, z, like);
    PowerKeepsOrder(fl, like, z);
  }

  /** A bin whose transform has whole parts has the sum of their squares, over 2^17, for its power. */
  lemma WholePower(a: Analysis, samples: seq<int>, t: nat, c: nat, n: int, m: int)
    requires a.Lawful() && c <= 1024 && n * n + m * m <= 0x100_0000
    requires a.forward(Window(a, samples, t + 1))[c] == Complex(n as real, m as real)
    ensures var sum := (n * n + m * m) as real;
            Spectra(a, samples)(t, c) == Max(a.floats.rounded(sum / 131072.0), 14411519.0 / 144115188075855872.0)
  {
    PowerOfWhole(a.floats, n, m);
  }

  lemma SquareOfWhole(n: int)
    ensures n * n >= 0 && Square(n as real) == (n * n) as real
  {
  }

  lemma SumOfWhole(fl: Floats, p: nat, q: nat)
    requires fl.Lawful() && p + q <= 0x100_0000
    ensures fl.rounded(fl.rounded(p as real) + fl.rounded(q as real)) == (p + q) as real
  {
    WholeIsKeptEitherWay(fl, p);
    WholeIsKeptEitherWay(fl, q);
    WholeIsKeptEitherWay(fl, p + q);
  }

  lemma PowerOfWhole(fl: Floats, n: int, m: int)
    requires fl.Lawful() && n * n + m * m <= 0x100_0000
    ensures Power(fl, Complex(n as real, m as real))
         == Max(fl.rounded((n * n + m * m) as real / 131072.0), 14411519.0 / 144115188075855872.0)
  {
    SquareOfWhole(n);
    SquareOfWhole(m);
    SumOfWhole(fl, n * n, m * m);
  }
}
