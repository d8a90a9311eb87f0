/** What the generator yields, the encoder takes: no assertion fires, and it reads back. */
module FingerprintEncoding {
  import opened Common
  import opened LittleEndian
  import opened Signature
  import opened Spectrogram
  import opened Interpolation
  import opened Fingerprint
  import opened SignatureFormat
  import opened SignatureDecoder

  const TWENTY_HOURS := 20 * 3600 * 16000

  lemma FoundInOrderAscends(h: History, fl: Floats, band: FrequencyBand, peaks: seq<FrequencyPeak>)
    requires AllFoundInOrder(h, fl, band, peaks)
    ensures PassesAscend(peaks)
  {
    forall i, j | 0 <= i < j < |peaks| ensures peaks[i].pass <= peaks[j].pass {
      assert FoundAfter(h, fl, band, peaks[i], peaks[j]);
    }
  }

  lemma WellApartIsOrdered(peaks: seq<FrequencyPeak>)
    requires AllWellApart(peaks, 608)
    ensures StrictlyOrdered(peaks)
  {
  }

  lemma BandPeaksAreOrdered(h: History, fl: Floats, band: FrequencyBand, passes: nat)
    requires Audible(h) && fl.Lawful()
    ensures PassesAscend(BandPeaks(h, fl, band, passes)) && StrictlyOrdered(BandPeaks(h, fl, band, passes))
    ensures forall x | x in BandPeaks(h, fl, band, passes) :: x.pass < passes && BandOf(x.bin) == Some(band)
  {
    BandPeaksAreInOrder(h, fl, band, passes);
    FoundInOrderAscends(h, fl, band, BandPeaks(h, fl, band, passes));
    BandPeaksAreWellApart(h, fl, band, passes);
    WellApartIsOrdered(BandPeaks(h, fl, band, passes));
  }

  /** The peaks of a band, as the fingerprint lists them. */
  lemma ListedPeaks(a: Analysis, samples: seq<int>, band: FrequencyBand)
    requires a.Lawful()
    ensures var peaks := PeaksIn(FingerprintOf(a, samples).soundPeaks, band);
            && peaks == BandPeaks(Spectra(a, samples), a.floats, band, Passes(|samples| / BLOCK))
            && PassesAscend(peaks) && StrictlyOrdered(peaks)
            && (forall x | x in peaks :: x.pass + 46 <= |samples| / BLOCK && BandOf(x.bin) == Some(band))
  {
    SpectraAreAudible(a, samples);
    BandPeaksAreOrdered(Spectra(a, samples), a.floats, band, Passes(|samples| / BLOCK));
  }

  /** Every fingerprint is encoded: its sample rate has an id and its passes ascend. */
  lemma FingerprintsEncode(a: Analysis, samples: seq<int>, crc32: Bytes -> u32)
    requires a.Lawful()
    ensures Encode(crc32, FingerprintOf(a, samples)).Success?
  {
    forall band | band in FingerprintOf(a, samples).soundPeaks
      ensures PassesAscend(FingerprintOf(a, samples).soundPeaks[band])
    {
      ListedPeaks(a, samples, band);
    }
  }

  /** And reads back, exactly when its length and its sample count fit their fields. */
  lemma FingerprintsRoundTripIff(a: Analysis, samples: seq<int>, crc32: Bytes -> u32)
    requires a.Lawful() && |samples| < BLOCK * U32_LIMIT
    ensures Encode(crc32, FingerprintOf(a, samples)).Success?
    ensures Decode(crc32, Encode(crc32, FingerprintOf(a, samples)).value) == Some(FingerprintOf(a, samples))
       <==> FieldsFit(FingerprintOf(a, samples))
  {
    var signature := FingerprintOf(a, samples);
    FingerprintsEncode(a, samples, crc32);
    forall band | band in signature.soundPeaks ensures PassesFit(signature.soundPeaks[band]) {
      ListedPeaks(a, samples, band);
    }
    RoundTripsIff(crc32, signature);
  }

  // ---------------------------------------------------------------------------------------
  // How many peaks there can be
  // ---------------------------------------------------------------------------------------

  /** How many peaks four bands have. */
  function InFour(w: seq<FrequencyPeak>, x: seq<FrequencyPeak>, y: seq<FrequencyPeak>, z: seq<FrequencyPeak>): nat {
    |w| + |x| + |y| + |z|
  }

  /** The peaks one pass has in all bands, from the bins below `end`. */
  function InPass(h: History, fl: Floats, p: nat, end: nat): nat {
    InFour(PassPeaks(h, fl, p, Band250To520, end), PassPeaks(h, fl, p, Band520To1450, end),
           PassPeaks(h, fl, p, Band1450To3500, end), PassPeaks(h, fl, p, Band3500To5500, end))
  }

  /** A bin adds at most its own peak, to at most one band. */
  lemma BinAddsOne(h: History, fl: Floats, p: nat, b: nat)
    requires b >= 10
    ensures InPass(h, fl, p, b + 1) <= InPass(h, fl, p, b) + if IsPeak(h, p, b) then 1 else 0
  {
  }

  lemma {:induction false} NothingBetween(h: History, fl: Floats, p: nat, low: nat, high: nat)
    requires low <= high && forall b: nat | low <= b < high :: !IsPeak(h, p, b)
    ensures InPass(h, fl, p, high) <= InPass(h, fl, p, low)
  {
    if low < high {
      NothingBetween(h, fl, p, low, high - 1);
      if high > 10 {
        BinAddsOne(h, fl, p, high - 1);
      }
    }
  }

  /** Below a peak there is no other for ten bins. */
  lemma NothingJustBelow(h: History, fl: Floats, p: nat, b: nat)
    requires IsPeak(h, p, b)
    ensures b >= 10 && InPass(h, fl, p, b) <= InPass(h, fl, p, b - 10)
  {
    forall c: nat | b - 10 <= c < b ensures !IsPeak(h, p, c) {
      if IsPeak(h, p, c) {
        PeaksKeepApart(h, p, c, p, b);
      }
    }
    NothingBetween(h, fl, p, b - 10, b);
  }

  lemma LastPeakOfAPass(h: History, fl: Floats, p: nat, b: nat) returns (start: nat)
    requires b >= 10
    ensures start <= b && 11 * InPass(h, fl, p, b + 1) <= 11 * InPass(h, fl, p, start) + b + 1 - start
  {
    BinAddsOne(h, fl, p, b);
    if IsPeak(h, p, b) {
      NothingJustBelow(h, fl, p, b);
      start := b - 10;
    } else {
      start := b;
    }
  }

  /** Of any eleven bins in a row at most one is a peak, so a pass has at most 92. */
  lemma {:induction false} PeaksOfAPassAreFew(h: History, fl: Floats, p: nat, end: nat)
    ensures 11 * InPass(h, fl, p, end) <= end
  {
    if end > 10 {
      var start := LastPeakOfAPass(h, fl, p, end - 1);
      PeaksOfAPassAreFew(h, fl, p, start);
    }
  }

  /** What four bands have in one pass, and over the first so many. */
  function FoundByFour(w: nat -> seq<FrequencyPeak>, x: nat -> seq<FrequencyPeak>,
                       y: nat -> seq<FrequencyPeak>, z: nat -> seq<FrequencyPeak>, p: nat): nat {
    InFour(w(p), x(p), y(p), z(p))
  }

  lemma {:induction false} CollectedAreFew(w: nat -> seq<FrequencyPeak>, x: nat -> seq<FrequencyPeak>,
                                           y: nat -> seq<FrequencyPeak>, z: nat -> seq<FrequencyPeak>,
                                           most: nat, passes: nat)
    requires forall p: nat :: FoundByFour(w, x, y, z, p) <= most
    ensures InFour(Collected(w, passes), Collected(x, passes), Collected(y, passes), Collected(z, passes))
         <= passes * most
  {
    if passes > 0 {
      CollectedAreFew(w, x, y, z, most, passes - 1);
      assert FoundByFour(w, x, y, z, passes - 1) <= most;
      assert passes * most == (passes - 1) * most + most;
    }
  }

  lemma CollectedPassesAreFew(h: History, fl: Floats, end: nat, passes: nat)
    requires end <= 1015
    ensures InFour(Collected(PassesIn(h, fl, Band250To520, end), passes),
                   Collected(PassesIn(h, fl, Band520To1450, end), passes),
                   Collected(PassesIn(h, fl, Band1450To3500, end), passes),
                   Collected(PassesIn(h, fl, Band3500To5500, end), passes))
         <= passes * 92
  {
    var w, x := PassesIn(h, fl, Band250To520, end), PassesIn(h, fl, Band520To1450, end);
    var y, z := PassesIn(h, fl, Band1450To3500, end), PassesIn(h, fl, Band3500To5500, end);
    forall p: nat ensures FoundByFour(w, x, y, z, p) <= 92 {
      PeaksOfAPassAreFew(h, fl, p, end);
    }
    CollectedAreFew(w, x, y, z, 92, passes);
  }

  /** All the peaks of a map of them. */
  function CountOf(soundPeaks: PeakMap): nat {
    InFour(PeaksIn(soundPeaks, Band250To520), PeaksIn(soundPeaks, Band520To1450),
           PeaksIn(soundPeaks, Band1450To3500), PeaksIn(soundPeaks, Band3500To5500))
  }

  /** A fingerprint has at most 92 peaks to each of its passes. */
  lemma FingerprintsAreSparse(a: Analysis, samples: seq<int>)
    requires a.Lawful()
    ensures CountOf(FingerprintOf(a, samples).soundPeaks) <= Passes(|samples| / BLOCK) * 92
  {
    CollectedPassesAreFew(Spectra(a, samples), a.floats, END_BIN, Passes(|samples| / BLOCK));
  }

  /** An escape takes 255 passes. */
  lemma {:induction false} EscapesAreFew(last: nat, peaks: seq<FrequencyPeak>)
    requires PassesAscend(peaks) && (peaks != [] ==> last <= peaks[0].pass)
    ensures 255 * Escapes(last, peaks) <= LastPass(last, peaks) - last
    decreases |peaks|
  {
    if peaks != [] {
      EscapesAreFew(peaks[0].pass, peaks[1..]);
    }
  }

  /** In ascending pass, none of them past the last. */
  ghost predicate AscendsBelow(peaks: seq<FrequencyPeak>, passes: nat) {
    PassesAscend(peaks) && forall x | x in peaks :: x.pass < passes
  }

  lemma PieceIsShort(peaks: seq<FrequencyPeak>, passes: nat)
    requires AscendsBelow(peaks, passes)
    ensures PieceLength(peaks) <= 11 + 5 * |peaks| + 5 * (passes / 255)
  {
    EscapesAreFew(0, peaks);
    if peaks != [] {
      assert peaks[|peaks| - 1] in peaks;
    }
  }

  lemma TotalSplits(x: seq<FrequencyBand>, y: seq<FrequencyBand>, length: FrequencyBand -> nat)
    ensures TotalLength(x + y, length) == TotalLength(x, length) + TotalLength(y, length)
  {
    if x == [] {
      assert x + y == y;
    } else {
      assert (x + y)[1..] == x[1..] + y;
      TotalSplits(x[1..], y, length);
    }
  }

  lemma OneBandIsShort(band: FrequencyBand, present: set<FrequencyBand>, length: FrequencyBand -> nat)
    ensures TotalLength(OnlyIf(band, present), length) <= length(band)
  {
    assert TotalLength([band], length) == length(band) + TotalLength([], length);
  }

  /** All bands together are no longer than the four would be. */
  lemma FourBandsAreLongest(present: set<FrequencyBand>, length: FrequencyBand -> nat)
    ensures TotalLength(InOrder(present), length)
         <= length(Band250To520) + length(Band520To1450) + length(Band1450To3500) + length(Band3500To5500)
  {
    var a, b := OnlyIf(Band250To520, present), OnlyIf(Band520To1450, present);
    var c, d := OnlyIf(Band1450To3500, present), OnlyIf(Band3500To5500, present);
    TotalSplits(a + b + c, d, length);
    TotalSplits(a + b, c, length);
    TotalSplits(a, b, length);
    OneBandIsShort(Band250To520, present, length);
    OneBandIsShort(Band520To1450, present, length);
    OneBandIsShort(Band1450To3500, present, length);
    OneBandIsShort(Band3500To5500, present, length);
  }

  lemma BandsAreShort(soundPeaks: PeakMap, passes: nat)
    requires forall band: FrequencyBand :: AscendsBelow(PeaksIn(soundPeaks, band), passes)
    ensures BandsLength(InOrder(soundPeaks.Keys), soundPeaks) <= 44 + 5 * CountOf(soundPeaks) + 20 * (passes / 255)
  {
    var length := (band: FrequencyBand) => PieceLength(PeaksIn(soundPeaks, band));
    FourBandsAreLongest(soundPeaks.Keys, length);
    forall band: FrequencyBand ensures length(band) <= 11 + 5 * |PeaksIn(soundPeaks, band)| + 5 * (passes / 255) {
      PieceIsShort(PeaksIn(soundPeaks, band), passes);
    }
  }

  lemma ShortFingerprintsFit(a: Analysis, samples: seq<int>)
    requires a.Lawful() && |samples| <= TWENTY_HOURS
    ensures FieldsFit(FingerprintOf(a, samples))
  {
    var soundPeaks, passes := FingerprintOf(a, samples).soundPeaks, Passes(|samples| / BLOCK);
    forall band: FrequencyBand ensures AscendsBelow(PeaksIn(soundPeaks, band), passes) {
      ListedPeaks(a, samples, band);
    }
    FingerprintsAreSparse(a, samples);
    BandsAreShort(soundPeaks, passes);
    assert passes <= TWENTY_HOURS / BLOCK;
  }

  ghost predicate RoundTrips(crc32: Bytes -> u32, signature: DecodedSignature) {
    Encode(crc32, signature).Success? && Decode(crc32, Encode(crc32, signature).value) == Some(signature)
  }

  /** The fingerprint of anything up to twenty hours long reads back whole from its encoding. */
  lemma FingerprintsRoundTrip(a: Analysis, samples: seq<int>, crc32: Bytes -> u32)
    requires a.Lawful() && |samples| <= TWENTY_HOURS
    ensures RoundTrips(crc32, FingerprintOf(a, samples))
  {
    ShortFingerprintsFit(a, samples);
    FingerprintsRoundTripIff(a, samples, crc32);
  }
}
