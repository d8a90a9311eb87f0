/**
  Inputs at which the interpolation leaves half a bin: magnitudes just below 16384, where twice a
  magnitude less another crosses to floats half as dense, and a frame of powers that has them.
 */
module Overshoot {
  import opened Common
  import opened PeakVariation
  import opened Rounding
  import opened Spectrogram
  import opened Interpolation
  import opened Fingerprint

  /** Magnitudes of some float steps below 16384. */
  function Below(steps: int): real {
    16384.0 - steps as real / 1024.0
  }

  lemma BelowIsKept(steps: nat)
    requires steps <= 0x80_0000
    ensures Spaced(Below(steps)) == Below(steps) && Spaced(steps as real / 1024.0) == steps as real / 1024.0
    ensures StepAt(Below(steps)) == if steps == 0 then 1.0 / 512.0 else 1.0 / 1024.0
  {
    StepsAreKept(0x100_0000 - steps);
    StepsAreKept(2 * steps);
    assert Below(steps) / 2.0 == Steps(0x100_0000 - steps) && steps as real / 1024.0 == Steps(2 * steps);
    if Below(steps) <= 8192.0 {
      StepsAreKept(0x200_0000 - 2 * steps);
    }
  }

  /** A float step of the magnitudes below 16384 past it, halfway between two floats: it rounds down. */
  lemma RoundsDownTo16384()
    ensures Spaced(16384.0 + 1.0 / 1024.0) == 16384.0
  {
    var quarter := (16384.0 + 1.0 / 1024.0) / 2.0 / 2.0;
    assert quarter * 2048.0 == 8388608.5 && Nearest(8388608.5) == 0x80_0000;
    assert SpacedAbove(quarter) == Steps(0x80_0000) == 4096.0;
  }

  /** The steps that the natural logarithm, rounded to floats of 24 bits, takes from power 1024.0921 to 1024.0942. */
  function LnNear1024(x: real): real {
    (if x < Power1024(755) then 14536538
     else if x < Power1024(767) then 14536539
     else if x < Power1024(771) then 14536542
     else 14536543) as real / 2097152.0
  }

  /** A power of so many float steps above 1024. */
  function Power1024(steps: int): real {
    1024.0 + steps as real / 8192.0
  }

  /** Floats, and a logarithm that agrees with the natural one where it is used here. */
  ghost predicate AreNear1024(fl: Floats) {
    fl.Lawful() && (forall x :: fl.rounded(x) == Spaced(x)) && (forall x :: fl.ln(x) == LnNear1024(x))
  }

  lemma FloatsNear1024() returns (fl: Floats)
    ensures AreNear1024(fl)
  {
    SpacedIsRounding();
    fl := Floats(x => Spaced(x), x => LnNear1024(x));
  }

  lemma SpacedNear10240(x: real, n: nat)
    requires 8192.0 < x <= 16384.0 && n as real - 0.5 < x * 1024.0 < n as real + 0.5 && n <= 0x100_0000
    ensures Spaced(x) == n as real / 1024.0
  {
    assert x / 2.0 * 2048.0 == x * 1024.0;
    assert Nearest(x / 2.0 * 2048.0) == n;
    assert SpacedAbove(x / 2.0) == Steps(n);
  }

  lemma MagnitudeNear1024(fl: Floats, power: real, ln: int, steps: nat)
    requires AreNear1024(fl) && fl.ln(power) == ln as real / 2097152.0
    requires (ln == 14536539 && steps == 3) || (ln == 14536542 && steps == 1)
    ensures fl.Magnitude(power) == Below(steps)
  {
    SpacedNear10240(ln as real / 2097152.0 * SLOPE, 0xa0_0000 - steps);
    BelowIsKept(steps);
    assert (0xa0_0000 - steps) as real / 1024.0 + 6144.0 == Below(steps);
  }

  // ---------------------------------------------------------------------------------------
  // Magnitudes
  // ---------------------------------------------------------------------------------------

  lemma QuotientIs(fl: Floats, numerator: real, denominator: real, n: int)
    requires fl.Lawful() && denominator > 0.0 && numerator == n as real * denominator && 0 <= n <= 64
    ensures fl.QuotientAsI32(numerator, denominator) == n && fl.QuotientAsI32(-numerator, denominator) == -n
  {
    assert numerator / denominator == n as real && (-numerator) / denominator == -(n as real);
    WholeBoundsAreKept(fl.rounded, F32_WHOLE, n as real, n);
    WholeBoundsAreKept(fl.rounded, F32_WHOLE, -(n as real), n);
  }

  /** The magnitudes of any of the three here are those of a peak, and fall short where they are meant to. */
  lemma NearAtPeak(fl: Floats, before: nat, at: nat, after: nat)
    requires AreNear1024(fl) && at <= before <= 3 && at <= after <= 3
    ensures fl.AtPeak(Below(before), Below(at), Below(after))
  {
    BelowIsKept(before);
    BelowIsKept(at);
    BelowIsKept(after);
  }

  /** The lean can be a whole bin: magnitudes three steps, one and one below 16384. */
  lemma LeanCanBeAWholeBin() returns (fl: Floats, before: real, at: real, after: real)
    ensures AreNear1024(fl) && before == Below(3) && at == after == Below(1)
    ensures fl.Overshoots(before, at, after) && fl.Lean(before, at, after) == 64
  {
    fl := FloatsNear1024();
    before, at, after := Below(3), Below(1), Below(1);
    LeansAWholeBin(fl);
  }

  lemma LeansAWholeBin(fl: Floats)
    requires AreNear1024(fl)
    ensures fl.Overshoots(Below(3), Below(1), Below(1)) && fl.Lean(Below(3), Below(1), Below(1)) == 64
  {
    NearAtPeak(fl, 3, 1, 1);
    BelowIsKept(3);
    RoundsDownTo16384();
    assert Below(1) * 2.0 - Below(3) == 16384.0 + 1.0 / 1024.0;
    OnlyLevelSidesFallShort(fl, Below(3), Below(1), Below(1));
    SlantIsExact(fl, Below(3), Below(1));
    VariationIsFromTwice(fl, Below(3), Below(1), Below(1));
    QuotientIs(fl, 64.0 / 1024.0, 1.0 / 1024.0, 64);
  }

  /** And it can saturate, where overflow checks would panic: magnitudes one step below 16384, and 16384 twice. */
  lemma LeanCanSaturate() returns (fl: Floats, before: real, at: real, after: real)
    ensures AreNear1024(fl) && before == Below(1) && at == after == Below(0)
    ensures fl.AtPeak(before, at, after) && fl.Lean(before, at, after) == I32_MAX
  {
    fl := FloatsNear1024();
    before, at, after := Below(1), Below(0), Below(0);
    NearAtPeak(fl, 1, 0, 0);
    BelowIsKept(1);
    RoundsDownTo16384();
    assert Below(0) * 2.0 - Below(1) == 16384.0 + 1.0 / 1024.0;
    LeanSaturatesIff(fl, before, at, after);
  }

  /** To the left nothing is rounded down, and the same magnitudes lean half a bin. */
  lemma LeansHalfABinBack(fl: Floats)
    requires AreNear1024(fl)
    ensures fl.Lean(Below(1), Below(1), Below(3)) == -32
  {
    BelowIsKept(1);
    BelowIsKept(2);
    SlantIsExact(fl, Below(1), Below(3));
    VariationIsFromTwice(fl, Below(1), Below(1), Below(3));
    assert KeepsSign(fl.rounded, 2.0 / 1024.0);
    assert Below(1) * 2.0 - Below(1) == Below(1) && Below(1) - Below(3) == 2.0 / 1024.0;
    QuotientIs(fl, 64.0 / 1024.0, 2.0 / 1024.0, 32);
  }

  // ---------------------------------------------------------------------------------------
  // A frame
  // ---------------------------------------------------------------------------------------

  /** Six bins of one frame: a peak that leans a whole bin right, and eleven up one that leans half a bin left. */
  function CloseFrame(p: nat, b: nat): History {
    (t: int, c: int) =>
      if t != p then FLOOR
      else if c == b || c == b + 11 then Power1024(768)
      else if c == b + 1 || c == b + 10 then Power1024(767)
      else if c == b - 1 || c == b + 12 then Power1024(755)
      else FLOOR
  }

  lemma LoudestAroundIsPeak(h: History, p: nat, b: nat)
    requires 10 <= b <= 1014 && h(p, b) >= THRESHOLD
    requires forall q, c | (q, c) != (p, b) && -10 <= c - b <= 10 :: h(q, c) < h(p, b)
    ensures IsPeak(h, p, b)
  {
    forall q, c | StrictRival(q - p, c - b) || WeakRival(q - p, c - b)
      ensures StrictRival(q - p, c - b) ==> h(q, c) < h(p, b)
      ensures WeakRival(q - p, c - b) ==> h(q, c) <= h(p, b)
    {
      RivalsAreClose(q - p, c - b);
    }
    DominantIsPeak(h, p, b);
  }

  lemma PowersAreOrdered()
    ensures 0.0 < FLOOR < THRESHOLD < Power1024(755) < Power1024(767) < Power1024(768)
  {
  }

  lemma CloseFrameHasPeaks(p: nat, b: nat)
    requires 10 <= b <= 1003
    ensures Audible(CloseFrame(p, b))
    ensures IsPeak(CloseFrame(p, b), p, b) && IsPeak(CloseFrame(p, b), p, b + 11)
  {
    PowersAreOrdered();
    LoudestAroundIsPeak(CloseFrame(p, b), p, b);
    LoudestAroundIsPeak(CloseFrame(p, b), p, b + 11);
  }

  lemma CloseMagnitudes(fl: Floats, p: nat, b: nat)
    requires AreNear1024(fl)
    ensures var h := CloseFrame(p, b);
            && fl.Magnitude(h(p, b - 1)) == Below(3)
            && fl.Magnitude(h(p, b)) == fl.Magnitude(h(p, b + 1)) == Below(1)
            && fl.Magnitude(h(p, b + 11 - 1)) == fl.Magnitude(h(p, b + 11)) == Below(1)
            && fl.Magnitude(h(p, b + 11 + 1)) == Below(3)
  {
    MagnitudeNear1024(fl, Power1024(755), 14536539, 3);
    MagnitudeNear1024(fl, Power1024(767), 14536542, 1);
    MagnitudeNear1024(fl, Power1024(768), 14536542, 1);
  }

  lemma LeanIsAdded(h: History, fl: Floats, p: int, b: nat, lean: int)
    requires 10 <= b <= 1014 && -100 <= lean <= 100
    requires fl.Lean(fl.Magnitude(h(p, b - 1)), fl.Magnitude(h(p, b)), fl.Magnitude(h(p, b + 1))) == lean
    ensures BinAt(h, fl, p, b) == 64 * b + lean
  {
  }

  lemma CloseBins(fl: Floats, p: nat, b: nat)
    requires AreNear1024(fl) && 10 <= b <= 1003
    ensures BinAt(CloseFrame(p, b), fl, p, b) == 64 * b + 64
    ensures BinAt(CloseFrame(p, b), fl, p, b + 11) == 64 * (b + 11) - 32
  {
    CloseMagnitudes(fl, p, b);
    LeansAWholeBin(fl);
    LeansHalfABinBack(fl);
    LeanIsAdded(CloseFrame(p, b), fl, p, b, 64);
    LeanIsAdded(CloseFrame(p, b), fl, p, b + 11, -32);
  }

  /** Two peaks of one pass, at any bins eleven apart, can be stored as little as nine and a half apart. */
  lemma StoredPeaksCanBeCloser(p: nat, b: nat) returns (h: History, fl: Floats)
    requires 10 <= b <= 1003
    ensures Audible(h) && AreNear1024(fl) && IsPeak(h, p, b) && IsPeak(h, p, b + 11)
    ensures BinAt(h, fl, p, b + 11) == BinAt(h, fl, p, b) + 608
  {
    h := CloseFrame(p, b);
    fl := FloatsNear1024();
    CloseFrameHasPeaks(p, b);
    CloseBins(fl, p, b);
  }
}
