/**
  What is stored for a peak: a log magnitude, a bin interpolated to a sixty-fourth from the
  two either side, and the band its frequency falls in. The logarithm is any monotone function,
  and every sum, product and quotient is rounded, to the nearest float of 24 bits.
 */
module Interpolation {
  import opened Common
  import opened PeakVariation
  import opened Rounding
  import opened Signature

  const I32_MAX := 0x7fff_ffff
  const I32_MIN := -0x8000_0000

  /** The float nearest 1477.3. */
  const SLOPE := 1477.300048828125

  ghost predicate Monotone(ln: real -> real) {
    forall x, y | 0.0 < x <= y :: ln(x) <= ln(y)
  }

  datatype Floats = Floats(rounded: real -> real, ln: real -> real) {

    ghost predicate Lawful() {
      IsRounding(rounded, F32_WHOLE) && Has24Bits(rounded) && Monotone(ln)
    }

    function Magnitude(power: real): real {
      rounded(rounded(Max(ln(power), 1.0 / 64.0) * SLOPE) + 6144.0)
    }

    /** Twice the magnitude of the peak less those either side, which the code asserts is not negative. */
    function Variation1(before: real, at: real, after: real): real {
      rounded(rounded(rounded(at * 2.0) - before) - after)
    }

    /** The difference of the two sides, in sixty-fourths of twice a bin. */
    function Slant(before: real, after: real): real {
      rounded(rounded(after - before) * 32.0)
    }

    /** How many sixty-fourths of a bin the peak leans toward the louder side. */
    function Lean(before: real, at: real, after: real): int {
      QuotientAsI32(Slant(before, after), Variation1(before, at, after))
    }

    /** A float division cast to `i32`: NaN becomes 0, an infinity or an overflow saturates. */
    function QuotientAsI32(numerator: real, denominator: real): int {
      if denominator != 0.0 then Clamped(Truncated(rounded(numerator / denominator)), I32_MIN, I32_MAX)
      else if numerator == 0.0 then 0
      else if numerator > 0.0 then I32_MAX
      else I32_MIN
    }

    /** Magnitudes as a peak has them: floats of at least 4096, neither side's above its own. */
    predicate AtPeak(before: real, at: real, after: real) {
      && rounded(before) == before && rounded(at) == at && rounded(after) == after
      && 4096.0 <= before <= at && 4096.0 <= after <= at
    }

    /** The side after is level with the peak, and twice the peak less the side before is rounded down. */
    predicate FallsShort(before: real, at: real, after: real) {
      after == at && Twice(rounded, before, at) < at * 2.0 - before
    }

    /** So it does, with the peak a single step above the side before. */
    predicate Saturates(before: real, at: real, after: real) {
      FallsShort(before, at, after) && at - before == StepAt(before)
    }

    /** So it does, with the peak from two to 33 steps above the side before. */
    predicate Overshoots(before: real, at: real, after: real) {
      FallsShort(before, at, after) && StepAt(before) < at - before <= 33.0 * StepAt(before)
    }
  }

  /** The sum may pass 31 bits and wrap; the cast keeps its low 16 either way. */
  function CorrectedBin(b: nat, lean: int): u16 {
    (b * 64 + lean) % U16_LIMIT
  }

  function BandOf(bin: u16): Option<FrequencyBand> {
    var hz := Truncated(bin as real * (16000.0 / 2.0 / 1024.0 / 64.0));
    if 250 <= hz <= 519 then Some(Band250To520)
    else if 520 <= hz <= 1449 then Some(Band520To1450)
    else if 1450 <= hz <= 3499 then Some(Band1450To3500)
    else if 3500 <= hz <= 5500 then Some(Band3500To5500)
    else None
  }

  lemma MagnitudeIsMonotone(fl: Floats, x: real, y: real)
    requires fl.Lawful() && 0.0 < x <= y
    ensures fl.Magnitude(x) <= fl.Magnitude(y)
  {
    var l, m := Max(fl.ln(x), 1.0 / 64.0), Max(fl.ln(y), 1.0 / 64.0);
    assert KeepsOrder(fl.rounded, l * SLOPE, m * SLOPE);
    assert KeepsOrder(fl.rounded, fl.rounded(l * SLOPE) + 6144.0, fl.rounded(m * SLOPE) + 6144.0);
  }

  lemma MagnitudeIsRounded(fl: Floats, power: real)
    requires fl.Lawful()
    ensures fl.rounded(fl.Magnitude(power)) == fl.Magnitude(power)
  {
    assert KeepsRounded(fl.rounded, fl.rounded(Max(fl.ln(power), 1.0 / 64.0) * SLOPE) + 6144.0);
  }

  lemma LeastMagnitude(fl: Floats, power: real)
    requires fl.Lawful()
    ensures fl.Magnitude(power) >= 6167.0
  {
    WholeBoundsAreKept(fl.rounded, F32_WHOLE, Max(fl.ln(power), 1.0 / 64.0) * SLOPE, 23);
    WholeBoundsAreKept(fl.rounded, F32_WHOLE, fl.rounded(Max(fl.ln(power), 1.0 / 64.0) * SLOPE) + 6144.0, 6167);
  }

  /** Every bin louder than the two beside it has the magnitudes of a peak. */
  lemma MagnitudesAreAtPeak(fl: Floats, before: real, at: real, after: real)
    requires fl.Lawful() && 0.0 < before <= at && 0.0 < after <= at
    ensures fl.AtPeak(fl.Magnitude(before), fl.Magnitude(at), fl.Magnitude(after))
  {
    MagnitudeIsRounded(fl, before);
    MagnitudeIsRounded(fl, at);
    MagnitudeIsRounded(fl, after);
    LeastMagnitude(fl, before);
    LeastMagnitude(fl, after);
    MagnitudeIsMonotone(fl, before, at);
    MagnitudeIsMonotone(fl, after, at);
  }

  /** The assertion holds however the sums round: no bin above the peak, no negative variation. */
  lemma VariationIsNotNegative(fl: Floats, before: real, at: real, after: real)
    requires fl.Lawful() && fl.rounded(at) == at
    requires before <= at && after <= at
    ensures fl.Variation1(before, at, after) >= 0.0
  {
    assert KeepsRounded(fl.rounded, at) && 2.0 * at == at * 2.0;
    assert KeepsOrder(fl.rounded, at, at * 2.0 - before);
    WholeBoundsAreKept(fl.rounded, F32_WHOLE, fl.rounded(at * 2.0 - before) - after, 0);
  }

  lemma QuotientHasSign(fl: Floats, numerator: real, denominator: real)
    requires fl.Lawful() && denominator >= 0.0
    ensures numerator >= 0.0 ==> fl.QuotientAsI32(numerator, denominator) >= 0
    ensures numerator <= 0.0 ==> fl.QuotientAsI32(numerator, denominator) <= 0
  {
    if denominator > 0.0 {
      var q := numerator / denominator;
      WholeBoundsAreKept(fl.rounded, F32_WHOLE, q, 0);
      if numerator >= 0.0 {
        QuotientReaches(0.0, numerator, denominator);
      }
      if numerator <= 0.0 {
        QuotientStays(0.0, numerator, denominator);
      }
    }
  }

  /** A peak leans toward the louder side. */
  lemma LeanIsTowardTheLouder(fl: Floats, before: real, at: real, after: real)
    requires fl.Lawful() && fl.rounded(at) == at
    requires before <= at && after <= at
    ensures before <= after ==> fl.Lean(before, at, after) >= 0
    ensures after <= before ==> fl.Lean(before, at, after) <= 0
  {
    VariationIsNotNegative(fl, before, at, after);
    WholeBoundsAreKept(fl.rounded, F32_WHOLE, after - before, 0);
    WholeBoundsAreKept(fl.rounded, F32_WHOLE, fl.rounded(after - before) * 32.0, 0);
    QuotientHasSign(fl, fl.Slant(before, after), fl.Variation1(before, at, after));
  }

  lemma TimesThirtyTwo(fl: Floats, x: real)
    requires fl.Lawful() && fl.rounded(x) == x
    ensures fl.rounded(x * 32.0) == x * 32.0
  {
    assert KeepsRounded(fl.rounded, x) && KeepsRounded(fl.rounded, 2.0 * x) && KeepsRounded(fl.rounded, 4.0 * x);
    assert KeepsRounded(fl.rounded, 8.0 * x) && KeepsRounded(fl.rounded, 16.0 * x);
  }

  lemma VariationIsFromTwice(fl: Floats, before: real, at: real, after: real)
    requires fl.Lawful() && fl.rounded(at) == at
    ensures fl.Variation1(before, at, after) == fl.rounded(Twice(fl.rounded, before, at) - after)
  {
    assert KeepsRounded(fl.rounded, at) && 2.0 * at == at * 2.0;
  }

  /** The sides differ by no more than the variation, if twice the peak less the side before rounds to enough. */
  lemma SidesDifferByLess(fl: Floats, before: real, at: real, after: real)
    requires fl.Lawful() && fl.rounded(at) == at
    requires before <= at && after <= at
    requires Twice(fl.rounded, before, at) >= after * 2.0 - before
    ensures -fl.Variation1(before, at, after) <= fl.rounded(after - before) <= fl.Variation1(before, at, after)
  {
    assert KeepsRounded(fl.rounded, at) && 2.0 * at == at * 2.0;
    assert KeepsOrder(fl.rounded, at, at * 2.0 - before);
    var exact := Twice(fl.rounded, before, at) - after;
    assert KeepsOrder(fl.rounded, after - before, exact) && KeepsOrder(fl.rounded, -(after - before), exact);
    assert KeepsSign(fl.rounded, after - before);
  }

  lemma SlantIsExact(fl: Floats, before: real, after: real)
    requires fl.Lawful()
    ensures fl.Slant(before, after) == fl.rounded(after - before) * 32.0
  {
    assert KeepsRounded(fl.rounded, after - before);
    TimesThirtyTwo(fl, fl.rounded(after - before));
  }

  /** The cast drops the fraction, toward zero from either side, and saturates at the most 31 bits hold. */
  lemma QuotientIsTruncated(fl: Floats, numerator: real, denominator: real)
    requires fl.Lawful() && numerator >= 0.0 && denominator > 0.0
    ensures var term, exact := fl.QuotientAsI32(numerator, denominator), fl.rounded(numerator / denominator);
            && (exact < 2147483648.0 ==> term as real <= exact < term as real + 1.0)
            && (exact >= 2147483648.0 ==> term == 2147483647)
            && (exact < 2147483648.0 ==> fl.QuotientAsI32(-numerator, denominator) == -term)
  {
    QuotientReaches(0.0, numerator, denominator);
    WholeBoundsAreKept(fl.rounded, F32_WHOLE, numerator / denominator, 0);
    assert (-numerator) / denominator == -(numerator / denominator);
    assert KeepsSign(fl.rounded, numerator / denominator);
  }

  lemma QuotientIsWithin32(fl: Floats, numerator: real, denominator: real)
    requires fl.Lawful() && 0.0 < denominator
    requires -32.0 * denominator <= numerator <= 32.0 * denominator
    ensures -32 <= fl.QuotientAsI32(numerator, denominator) <= 32
  {
    QuotientReaches(-32.0, numerator, denominator);
    QuotientStays(32.0, numerator, denominator);
    WholeBoundsAreKept(fl.rounded, F32_WHOLE, numerator / denominator, 32);
  }

  lemma QuotientIsUnder33(fl: Floats, numerator: real, denominator: real)
    requires fl.Lawful() && 0.0 < denominator && 0.0 <= numerator <= 32.98 * denominator
    ensures 0 <= fl.QuotientAsI32(numerator, denominator) <= 32
  {
    QuotientReaches(0.0, numerator, denominator);
    QuotientStays(32.98, numerator, denominator);
    WholeBoundsAreKept(fl.rounded, F32_WHOLE, numerator / denominator, 0);
    assert IsNearStep(fl.rounded, numerator / denominator);
  }

  lemma QuotientIsFrom33(fl: Floats, numerator: real, denominator: real)
    requires fl.Lawful() && 0.0 < denominator
    requires 33.0 * denominator <= numerator <= 64.0 * denominator
    ensures 33 <= fl.QuotientAsI32(numerator, denominator) <= 64
  {
    QuotientReaches(33.0, numerator, denominator);
    QuotientStays(64.0, numerator, denominator);
    WholeBoundsAreKept(fl.rounded, F32_WHOLE, numerator / denominator, 33);
    WholeBoundsAreKept(fl.rounded, F32_WHOLE, numerator / denominator, 64);
  }

  /** Twice the peak less the side before can be rounded down, as long as it reaches twice the side after less that. */
  lemma LeanIsHalfABinIfReached(fl: Floats, before: real, at: real, after: real)
    requires fl.Lawful() && fl.rounded(at) == at
    requires before <= at && after <= at
    requires Twice(fl.rounded, before, at) >= after * 2.0 - before
    ensures -32 <= fl.Lean(before, at, after) <= 32
  {
    SidesDifferByLess(fl, before, at, after);
    SlantIsExact(fl, before, after);
    if fl.Variation1(before, at, after) != 0.0 {
      QuotientIsWithin32(fl, fl.Slant(before, after), fl.Variation1(before, at, after));
    }
  }

  /** And where the two differences are exact, only then is the slant no more than 32 times the variation. */
  lemma ReachedIffWithin32(fl: Floats, before: real, at: real, after: real)
    requires fl.Lawful() && fl.rounded(after - before) == after - before
    requires fl.Variation1(before, at, after) == Twice(fl.rounded, before, at) - after
    ensures fl.Slant(before, after) <= 32.0 * fl.Variation1(before, at, after)
       <==> Twice(fl.rounded, before, at) >= after * 2.0 - before
  {
    SlantIsExact(fl, before, after);
  }

  /** Only a side after that is level with the peak is out of reach, and only above a side before that is not. */
  lemma OnlyLevelSidesFallShort(fl: Floats, before: real, at: real, after: real)
    requires fl.Lawful() && fl.AtPeak(before, at, after)
    requires Twice(fl.rounded, before, at) < after * 2.0 - before
    ensures after == at && before < at && PeakVariation.FallsShort(fl.rounded, before, at, StepAt(before))
  {
    assert KeepsOrder(fl.rounded, at, at * 2.0 - before);
    if before <= after < at {
      TwiceReaches(fl.rounded, before, at, after);
    }
    RoundedDownFallsShort(fl.rounded, before, at);
  }

  /** What the term is when the variation falls short. */
  lemma LeanFallingShort(fl: Floats, before: real, at: real)
    requires fl.Lawful() && fl.rounded(at) == at && before < at
    requires PeakVariation.FallsShort(fl.rounded, before, at, StepAt(before))
    ensures var lean, steps := fl.Lean(before, at, at), StepAt(before);
            && (at - before == steps ==> lean == I32_MAX)
            && (steps < at - before <= 33.0 * steps ==> 33 <= lean <= 64)
            && (33.0 * steps < at - before ==> -32 <= lean <= 32)
  {
    var slant, variation := fl.Slant(before, at), fl.Variation1(before, at, at);
    SlantIsExact(fl, before, at);
    VariationIsFromTwice(fl, before, at, at);
    if at - before > 33.0 * StepAt(before) {
      WholeBoundsAreKept(fl.rounded, F32_WHOLE, at - before, 0);
      QuotientIsUnder33(fl, slant, variation);
    } else if at - before > StepAt(before) {
      QuotientIsFrom33(fl, slant, variation);
    }
  }

  /** The term is within half a bin, up to a whole one to the right, or saturated, by what the magnitudes are. */
  lemma LeanAtPeak(fl: Floats, before: real, at: real, after: real)
    requires fl.Lawful() && fl.AtPeak(before, at, after)
    ensures var lean := fl.Lean(before, at, after);
            && (fl.Saturates(before, at, after) ==> lean == I32_MAX)
            && (fl.Overshoots(before, at, after) ==> 33 <= lean <= 64)
            && (!fl.Saturates(before, at, after) && !fl.Overshoots(before, at, after) ==> -32 <= lean <= 32)
  {
    if Twice(fl.rounded, before, at) >= after * 2.0 - before {
      LeanIsHalfABinIfReached(fl, before, at, after);
    } else {
      OnlyLevelSidesFallShort(fl, before, at, after);
      LeanFallingShort(fl, before, at);
    }
  }

  /**
    The interpolation term is within 32, half a bin, unless the side after is level with the peak,
    twice the peak less the side before is rounded down, and the peak is no more than 33 steps above it.
   */
  lemma LeanIsHalfABinIff(fl: Floats, before: real, at: real, after: real)
    requires fl.Lawful() && fl.AtPeak(before, at, after)
    ensures -32 <= fl.Lean(before, at, after) <= 32
       <==> !(after == at && Twice(fl.rounded, before, at) < at * 2.0 - before && at - before <= 33.0 * StepAt(before))
    ensures fl.Lean(before, at, after) >= -32
  {
    LeanAtPeak(fl, before, at, after);
    if fl.FallsShort(before, at, after) {
      OnlyLevelSidesFallShort(fl, before, at, after);
    }
  }

  /** It saturates exactly where nothing is left to divide a difference by: one step, and that rounded away. */
  lemma LeanSaturatesIff(fl: Floats, before: real, at: real, after: real)
    requires fl.Lawful() && fl.AtPeak(before, at, after)
    ensures fl.Lean(before, at, after) == I32_MAX <==> fl.Saturates(before, at, after)
    ensures fl.Variation1(before, at, after) == 0.0 && before < after <==> fl.Saturates(before, at, after)
  {
    LeanAtPeak(fl, before, at, after);
    if fl.Saturates(before, at, after) {
      OnlyLevelSidesFallShort(fl, before, at, after);
      VariationIsFromTwice(fl, before, at, at);
    } else if fl.Variation1(before, at, after) == 0.0 && before < after {
      SidesDifferByMore(fl, before, after);
      SlantIsExact(fl, before, after);
    }
  }

  lemma SidesDifferByMore(fl: Floats, before: real, after: real)
    requires fl.Lawful() && fl.rounded(before) == before && fl.rounded(after) == after && 4096.0 <= before < after
    ensures fl.rounded(after - before) > 0.0
  {
    var n := FloatsAreSteps(fl.rounded, before);
    var m := FloatsAreSteps(fl.rounded, after);
    assert n < m && Steps(1) <= after - before;
    assert KeepsStep(fl.rounded, 1) && KeepsOrder(fl.rounded, Steps(1), after - before);
  }

  lemma QuotientReaches(low: real, numerator: real, denominator: real)
    requires 0.0 < denominator && low * denominator <= numerator
    ensures low <= numerator / denominator
  {
    if numerator / denominator < low {
      Scaled(numerator / denominator, low, denominator);
    }
  }

  lemma QuotientStays(high: real, numerator: real, denominator: real)
    requires 0.0 < denominator && numerator <= high * denominator
    ensures numerator / denominator <= high
  {
    if high < numerator / denominator {
      Scaled(high, numerator / denominator, denominator);
    }
  }

  lemma Scaled(x: real, y: real, factor: real)
    requires x < y && 0.0 < factor
    ensures x * factor < y * factor
  {
    assert (y - x) * factor > 0.0;
  }

  /** Added to a bin, the most 31 bits hold comes to one step below it. */
  lemma SaturatedLeanWraps(b: nat)
    requires 1 <= b <= 1023
    ensures CorrectedBin(b, I32_MAX) == 64 * b - 1
  {
  }

  lemma CorrectedBinIsNear(b: nat, lean: int)
    requires 10 <= b <= 1014 && (-32 <= lean <= 64 || lean == I32_MAX)
    ensures CorrectedBin(b, lean) == 64 * b + if lean == I32_MAX then -1 else lean
  {
    if lean == I32_MAX {
      SaturatedLeanWraps(b);
    }
  }

  /**
    A peak is stored within half a bin of itself to the left and a whole one to the right, and within
    half a bin to the right as well exactly when it does not overshoot: what saturates wraps to a step
    to the left.
   */
  lemma CorrectedBinIsWithinHalfABinIff(fl: Floats, before: real, at: real, after: real, b: nat)
    requires fl.Lawful() && fl.AtPeak(before, at, after) && 10 <= b <= 1014
    ensures var bin := CorrectedBin(b, fl.Lean(before, at, after));
            && 64 * b - 32 <= bin <= 64 * b + 64
            && (bin <= 64 * b + 32 <==> !fl.Overshoots(before, at, after))
  {
    LeanAtPeak(fl, before, at, after);
    CorrectedBinIsNear(b, fl.Lean(before, at, after));
  }

  /** The four bands are adjoining intervals of corrected bins, with everything else in none. */
  lemma BandsAreIntervals(bin: u16)
    ensures BandOf(bin) == Some(Band250To520) <==> 2048 <= bin < 4260
    ensures BandOf(bin) == Some(Band520To1450) <==> 4260 <= bin < 11879
    ensures BandOf(bin) == Some(Band1450To3500) <==> 11879 <= bin < 28672
    ensures BandOf(bin) == Some(Band3500To5500) <==> 28672 <= bin < 45065
    ensures BandOf(bin) == None <==> bin < 2048 || 45065 <= bin
  {
    assert bin as real * (16000.0 / 2.0 / 1024.0 / 64.0) == bin as real * 125.0 / 1024.0;
  }
}
