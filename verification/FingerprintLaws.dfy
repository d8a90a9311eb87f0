/** How the fingerprint of one recording relates to that of another. */
module FingerprintLaws {
  import opened Common
  import opened Signature
  import opened Spectrogram
  import opened Interpolation
  import opened Fingerprint

  // ---------------------------------------------------------------------------------------
  // One pass
  // ---------------------------------------------------------------------------------------

  /** Frame p of `h` is frame r of `g`, and so are the 45 either side, up to what is too quiet. */
  ghost predicate SameAround(h: History, p: int, g: History, r: int) {
    && (forall dt, c | -45 <= dt <= 45 :: AgreeAt(h, p, g, r, dt, c))
    && (forall c :: h(p, c) == g(r, c))
  }

  lemma StoredAlike(h: History, p: nat, g: History, r: nat, fl: Floats, b: nat, band: FrequencyBand)
    requires SameAround(h, p, g, r)
    ensures StoredIn(h, fl, p, b, band) <==> StoredIn(g, fl, r, b, band)
    ensures PeakAt(g, fl, r, b) == PeakAt(h, fl, p, b).(pass := r)
  {
    PeakIsLocal(h, p, g, r, b);
  }

  function LaterIf(found: Option<FrequencyPeak>, k: nat): Option<FrequencyPeak> {
    match found
    case None => None
    case Some(peak) => Some(peak.(pass := peak.pass + k))
  }

  lemma {:induction false} GatheredMove(f: nat -> Option<FrequencyPeak>, g: nat -> Option<FrequencyPeak>, k: nat,
                                        end: nat)
    requires forall b: nat | b < end :: g(b) == LaterIf(f(b), k)
    ensures Gathered(g, end) == Later(Gathered(f, end), k)
  {
    if end > 10 {
      GatheredMove(f, g, k, end - 1);
    }
  }

  lemma FoundMoves(h: History, p: nat, g: History, r: nat, fl: Floats, band: FrequencyBand, b: nat)
    requires p <= r && SameAround(h, p, g, r)
    ensures FoundIn(g, fl, r, band)(b) == LaterIf(FoundIn(h, fl, p, band)(b), r - p)
  {
    StoredAlike(h, p, g, r, fl, b, band);
  }

  lemma PassPeaksMove(h: History, p: nat, g: History, r: nat, fl: Floats, band: FrequencyBand, end: nat)
    requires p <= r && SameAround(h, p, g, r)
    ensures PassPeaks(g, fl, r, band, end) == Later(PassPeaks(h, fl, p, band, end), r - p)
  {
    var f, f' := FoundIn(h, fl, p, band), FoundIn(g, fl, r, band);
    forall b: nat | b < end ensures f'(b) == LaterIf(f(b), r - p) {
      FoundMoves(h, p, g, r, fl, band, b);
    }
    GatheredMove(f, f', r - p, end);
  }

  lemma LaterConcat(x: seq<FrequencyPeak>, y: seq<FrequencyPeak>, k: nat)
    ensures Later(x + y, k) == Later(x, k) + Later(y, k)
    ensures Later(x, 0) == x
  {
  }

  // ---------------------------------------------------------------------------------------
  // Locality
  // ---------------------------------------------------------------------------------------

  lemma PassAlike(h: History, g: History, p: nat, fl: Floats, band: FrequencyBand, end: nat)
    requires SameAround(h, p, g, p)
    ensures PassPeaks(h, fl, p, band, end) == PassPeaks(g, fl, p, band, end)
  {
    PassPeaksMove(h, p, g, p, fl, band, end);
    LaterConcat(PassPeaks(h, fl, p, band, end), [], 0);
  }

  ghost predicate SameSamples(s: seq<int>, r: seq<int>, from: int, to: int) {
    forall i | from <= i < to :: Sample(s, i) == Sample(r, i)
  }

  lemma SameFrame(a: Analysis, s: seq<int>, r: seq<int>, t: nat, from: int, to: int)
    requires a.Lawful() && SameSamples(s, r, from, to)
    requires from <= BLOCK * (t + 1) - WINDOW && BLOCK * (t + 1) <= to
    ensures forall c :: Spectra(a, s)(t, c) == Spectra(a, r)(t, c)
  {
    FrameIsLocal(a, s, t, r, t);
  }

  ghost predicate SameFrames(h: History, g: History, from: int, to: int) {
    forall t, c | from <= t <= to :: h(t, c) == g(t, c)
  }

  lemma SameSamplesSameFrames(a: Analysis, s: seq<int>, r: seq<int>, p: nat)
    requires a.Lawful() && SameSamples(s, r, BLOCK * (p - 44) - WINDOW, BLOCK * (p + 46))
    ensures SameFrames(Spectra(a, s), Spectra(a, r), p - 45, p + 45)
  {
    forall t, c | p - 45 <= t <= p + 45 ensures Spectra(a, s)(t, c) == Spectra(a, r)(t, c) {
      if t >= 0 {
        SameFrame(a, s, r, t, BLOCK * (p - 44) - WINDOW, BLOCK * (p + 46));
      }
    }
  }

  lemma SameFramesAreAround(h: History, g: History, p: nat)
    requires SameFrames(h, g, p - 45, p + 45)
    ensures SameAround(h, p, g, p)
  {
  }

  /**
    The peaks of a pass are determined by the samples from the start of the window of the frame
    45 before it to the end of the block of the frame 45 after it.
   */
  lemma PassIsLocal(a: Analysis, s: seq<int>, r: seq<int>, p: nat, band: FrequencyBand, end: nat)
    requires a.Lawful() && SameSamples(s, r, BLOCK * (p - 44) - WINDOW, BLOCK * (p + 46))
    ensures PassPeaks(Spectra(a, s), a.floats, p, band, end) == PassPeaks(Spectra(a, r), a.floats, p, band, end)
  {
    SameSamplesSameFrames(a, s, r, p);
    SameFramesAreAround(Spectra(a, s), Spectra(a, r), p);
    PassAlike(Spectra(a, s), Spectra(a, r), p, a.floats, band, end);
  }

  lemma {:induction false} CollectedAlike(f: nat -> seq<FrequencyPeak>, g: nat -> seq<FrequencyPeak>, passes: nat)
    requires forall p: nat | p < passes :: f(p) == g(p)
    ensures Collected(f, passes) == Collected(g, passes)
  {
    if passes > 0 {
      CollectedAlike(f, g, passes - 1);
    }
  }

  lemma PrefixHasTheSamePasses(a: Analysis, s: seq<int>, m: nat, band: FrequencyBand, end: nat, passes: nat)
    requires a.Lawful() && m <= |s| && passes <= Passes(m / BLOCK)
    ensures Collected(PassesIn(Spectra(a, s[..m]), a.floats, band, end), passes)
         == Collected(PassesIn(Spectra(a, s), a.floats, band, end), passes)
  {
    var f, g := PassesIn(Spectra(a, s[..m]), a.floats, band, end), PassesIn(Spectra(a, s), a.floats, band, end);
    forall p: nat | p < passes ensures f(p) == g(p) {
      PassIsLocal(a, s[..m], s, p, band, end);
    }
    CollectedAlike(f, g, passes);
  }

  /** The peaks of passes before the given one, in their order. */
  function Earlier(peaks: seq<FrequencyPeak>, pass: nat): seq<FrequencyPeak> {
    if peaks == [] then []
    else Earlier(peaks[..|peaks| - 1], pass) + if peaks[|peaks| - 1].pass < pass then [peaks[|peaks| - 1]] else []
  }

  lemma {:induction false} EarlierSplits(front: seq<FrequencyPeak>, back: seq<FrequencyPeak>, pass: nat)
    requires forall x | x in back :: x.pass >= pass
    ensures Earlier(front + back, pass) == Earlier(front, pass)
  {
    if back == [] {
      assert front + back == front;
    } else {
      var n := |back| - 1;
      assert (front + back)[..|front| + n] == front + back[..n];
      EarlierSplits(front, back[..n], pass);
    }
  }

  lemma {:induction false} EarlierKeepsAll(peaks: seq<FrequencyPeak>, pass: nat)
    requires forall x | x in peaks :: x.pass < pass
    ensures Earlier(peaks, pass) == peaks
  {
    if peaks != [] {
      var front, last := peaks[..|peaks| - 1], peaks[|peaks| - 1];
      assert peaks == front + [last] && last in peaks;
      EarlierKeepsAll(front, pass);
    }
  }

  lemma {:induction false} EarlierCollected(found: nat -> seq<FrequencyPeak>, passes: nat, all: nat)
    requires passes <= all && forall p: nat | p < all :: FromOnePass(found(p), p)
    ensures Collected(found, passes) == Earlier(Collected(found, all), passes)
    decreases all
  {
    if passes == all {
      CollectedAreBelow(found, passes);
      EarlierKeepsAll(Collected(found, passes), passes);
    } else {
      EarlierCollected(found, passes, all - 1);
      assert FromOnePass(found(all - 1), all - 1);
      EarlierSplits(Collected(found, all - 1), found(all - 1), passes);
    }
  }

  /** Cutting a recording short keeps exactly the peaks of the passes that still run. */
  lemma PrefixFingerprint(a: Analysis, s: seq<int>, m: nat, band: FrequencyBand)
    requires a.Lawful() && m <= |s|
    ensures PeaksIn(FingerprintOf(a, s[..m]).soundPeaks, band)
         == Earlier(PeaksIn(FingerprintOf(a, s).soundPeaks, band), Passes(m / BLOCK))
  {
    PrefixHasTheSamePasses(a, s, m, band, END_BIN, Passes(m / BLOCK));
    PassPeaksAreFromOnePass(Spectra(a, s), a.floats, band, END_BIN);
    EarlierCollected(PassesIn(Spectra(a, s), a.floats, band, END_BIN), Passes(m / BLOCK), Passes(|s| / BLOCK));
  }

  // ---------------------------------------------------------------------------------------
  // Leading silence
  // ---------------------------------------------------------------------------------------

  function Padded(s: seq<int>, k: nat): seq<int> {
    seq(BLOCK * k, i => 0) + s
  }

  /** Frame t of `h` is frame t + k of `g`, and anything before frame 0 of `h` is quiet in both. */
  predicate DelayedAt(h: History, g: History, k: nat, t: int, c: int) {
    if t >= 0 then h(t, c) == g(t + k, c) else h(t, c) < THRESHOLD && g(t + k, c) < THRESHOLD
  }

  ghost predicate Delayed(h: History, g: History, k: nat) {
    forall t, c :: DelayedAt(h, g, k, t, c)
  }

  lemma PaddedSample(s: seq<int>, k: nat, i: int)
    ensures Sample(s, i) == Sample(Padded(s, k), i + BLOCK * k)
  {
  }

  lemma PaddedFrame(a: Analysis, s: seq<int>, k: nat, t: nat, u: nat)
    requires a.Lawful() && u == t + k
    ensures forall c :: Spectra(a, s)(t, c) == Spectra(a, Padded(s, k))(u, c)
  {
    forall i ensures Sample(s, i) == Sample(Padded(s, k), i + BLOCK * (u - t)) {
      PaddedSample(s, k, i);
    }
    FrameIsLocal(a, s, t, Padded(s, k), u);
  }

  lemma QuietBeforePadded(a: Analysis, s: seq<int>, k: nat, u: int)
    requires a.Lawful() && u < k
    ensures forall c :: Spectra(a, Padded(s, k))(u, c) < THRESHOLD
  {
    forall i | i < BLOCK * (u + 1) ensures Sample(Padded(s, k), i) == 0 {
      PaddedSample(s, k, i - BLOCK * k);
    }
    SilentFrame(a, Padded(s, k), u);
  }

  lemma PaddedIsDelayed(a: Analysis, s: seq<int>, k: nat)
    requires a.Lawful()
    ensures Delayed(Spectra(a, s), Spectra(a, Padded(s, k)), k)
  {
    forall t, c ensures DelayedAt(Spectra(a, s), Spectra(a, Padded(s, k)), k, t, c) {
      if t >= 0 {
        PaddedFrame(a, s, k, t, t + k);
      } else {
        QuietBeforePadded(a, s, k, t + k);
      }
    }
  }

  lemma DelayedIsSame(h: History, g: History, k: nat, p: nat, r: nat)
    requires Delayed(h, g, k) && r == p + k
    ensures SameAround(h, p, g, r)
  {
    forall dt, c | -45 <= dt <= 45 ensures AgreeAt(h, p, g, r, dt, c) {
      assert DelayedAt(h, g, k, p + dt, c) && p + dt + k == r + dt;
    }
    forall c ensures h(p, c) == g(r, c) {
      assert DelayedAt(h, g, k, p, c);
    }
  }

  lemma DelayedPass(h: History, g: History, k: nat, fl: Floats, p: nat, r: nat, band: FrequencyBand, end: nat)
    requires Delayed(h, g, k) && r == p + k
    ensures PassPeaks(g, fl, r, band, end) == Later(PassPeaks(h, fl, p, band, end), k)
  {
    DelayedIsSame(h, g, k, p, r);
    PassPeaksMove(h, p, g, r, fl, band, end);
  }

  lemma {:induction false} NothingGathered(found: nat -> Option<FrequencyPeak>, end: nat)
    requires forall b: nat | b < end :: found(b) == None
    ensures Gathered(found, end) == []
  {
    if end > 10 {
      NothingGathered(found, end - 1);
    }
  }

  lemma QuietPassHasNoPeaks(h: History, fl: Floats, p: nat, band: FrequencyBand, end: nat)
    requires forall c :: h(p, c) < THRESHOLD
    ensures PassPeaks(h, fl, p, band, end) == []
  {
    NothingGathered(FoundIn(h, fl, p, band), end);
  }

  lemma PassBeforeDelay(h: History, g: History, k: nat, fl: Floats, p: nat, band: FrequencyBand, end: nat)
    requires Delayed(h, g, k) && p < k
    ensures PassPeaks(g, fl, p, band, end) == []
  {
    forall c ensures g(p, c) < THRESHOLD {
      assert DelayedAt(h, g, k, p - k, c) && p - k + k == p;
    }
    QuietPassHasNoPeaks(g, fl, p, band, end);
  }

  lemma {:induction false} CollectedLater(f: nat -> seq<FrequencyPeak>, g: nat -> seq<FrequencyPeak>, k: nat,
                                          passes: nat)
    requires forall p: nat | p < k :: g(p) == []
    requires forall p: nat :: g(p + k) == Later(f(p), k)
    ensures Collected(g, passes) == if passes < k then [] else Later(Collected(f, passes - k), k)
  {
    if passes > 0 {
      CollectedLater(f, g, k, passes - 1);
      if passes > k {
        assert g((passes - 1 - k) + k) == Later(f(passes - 1 - k), k);
        LaterConcat(Collected(f, passes - 1 - k), f(passes - 1 - k), k);
      }
    }
  }

  lemma DelayedPasses(h: History, g: History, k: nat, fl: Floats, band: FrequencyBand, end: nat, passes: nat)
    requires Delayed(h, g, k)
    ensures Collected(PassesIn(g, fl, band, end), passes)
         == if passes < k then [] else Later(Collected(PassesIn(h, fl, band, end), passes - k), k)
  {
    var f, f' := PassesIn(h, fl, band, end), PassesIn(g, fl, band, end);
    forall p: nat | p < k ensures f'(p) == [] {
      PassBeforeDelay(h, g, k, fl, p, band, end);
    }
    forall p: nat ensures f'(p + k) == Later(f(p), k) {
      DelayedPass(h, g, k, fl, p, p + k, band, end);
    }
    CollectedLater(f, f', k, passes);
  }

  lemma DelayedBand(h: History, g: History, k: nat, fl: Floats, band: FrequencyBand, passes: nat)
    requires Delayed(h, g, k)
    ensures BandPeaks(g, fl, band, passes) == if passes < k then [] else Later(BandPeaks(h, fl, band, passes - k), k)
  {
    DelayedPasses(h, g, k, fl, band, END_BIN, passes);
  }

  /** Leading silence of k blocks moves every peak k passes later and adds or removes none. */
  lemma PaddingDelays(a: Analysis, s: seq<int>, k: nat)
    requires a.Lawful()
    ensures FingerprintOf(a, Padded(s, k)).soundPeaks
         == map band | band in FingerprintOf(a, s).soundPeaks :: Later(FingerprintOf(a, s).soundPeaks[band], k)
  {
    var h, g := Spectra(a, s), Spectra(a, Padded(s, k));
    PaddedIsDelayed(a, s, k);
    var blocks := |s| / BLOCK;
    assert |Padded(s, k)| / BLOCK == blocks + k;
    forall band: FrequencyBand
      ensures BandPeaks(g, a.floats, band, Passes(blocks + k)) == Later(BandPeaks(h, a.floats, band, Passes(blocks)), k)
    {
      DelayedBand(h, g, k, a.floats, band, Passes(blocks + k));
    }
  }
}
