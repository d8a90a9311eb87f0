/**
  How far the variation of a peak, twice its magnitude less those either side, falls short of the
  difference of the two sides once each subtraction is rounded to 24 bits.
 */
module PeakVariation {
  import opened Rounding

  lemma ErrorIsAStep(rounded: real -> real, x: real)
    requires Has24Bits(rounded) && 0.0 <= x <= 32768.0
    ensures -1.0 / 1024.0 <= rounded(x) - x <= 1.0 / 1024.0
    ensures x <= 16384.0 ==> -1.0 / 2048.0 <= rounded(x) - x <= 1.0 / 2048.0
  {
    assert IsNearStep(rounded, x) && IsNearStep(rounded, x / 2.0) && IsNearStep(rounded, x / 4.0);
    assert Doubles(rounded, x / 2.0) && Doubles(rounded, x / 4.0);
    assert 2.0 * (x / 2.0) == x && 2.0 * (x / 4.0) == x / 2.0;
  }

  /** While the side after is below the peak at all, rounding twice the peak cannot lose the difference. */
  lemma {:induction false} TwiceReaches(rounded: real -> real, before: real, at: real, after: real)
    requires Has24Bits(rounded) && rounded(at) == at && rounded(after) == after
    requires 0.0 <= before <= after < at && 4096.0 <= after
    ensures rounded(at * 2.0 - before) >= after * 2.0 - before
    decreases at.Floor
  {
    if at < 16384.0 {
      var n := FloatsAreSteps(rounded, after);
      var m := FloatsAreSteps(rounded, at);
      assert n < m && after <= at - 1.0 / 2048.0;
      ErrorIsAStep(rounded, at * 2.0 - before);
    } else if after < 8192.0 {
      assert KeepsOrder(rounded, at, at * 2.0 - before);
    } else {
      HalfIsFloat(rounded, at);
      HalfIsFloat(rounded, after);
      TwiceReaches(rounded, before / 2.0, at / 2.0, after / 2.0);
      assert Doubles(rounded, at / 2.0 * 2.0 - before / 2.0);
      assert 2.0 * (at / 2.0 * 2.0 - before / 2.0) == at * 2.0 - before;
    }
  }

  /** Twice the peak less the side before, as rounded. */
  function Twice(rounded: real -> real, before: real, at: real): real {
    rounded(at * 2.0 - before)
  }

  /**
    Where it is rounded down, with the peak a few steps above the side before, the variation over
    a side after that equals the peak is one step less than the difference; with more, close enough.
   */
  ghost predicate FallsShort(rounded: real -> real, before: real, at: real, step: real) {
    var difference := at - before;
    var variation := rounded(Twice(rounded, before, at) - at);
    && difference >= step
    && (difference <= 33.0 * step ==>
          && rounded(difference) == difference && variation == difference - step
          && (difference == step || difference >= 2.0 * step))
    && (difference > 33.0 * step ==> variation > 0.0 && 32.0 * rounded(difference) <= 32.98 * variation)
  }

  /** Between 8192 and 16384 a float is an even number of steps. */
  lemma EvenSteps(rounded: real -> real, x: real) returns (n: int)
    requires Has24Bits(rounded) && 8192.0 <= x <= 16384.0
    ensures rounded(x) == Steps(2 * n)
  {
    assert IsOnStep(rounded, x / 2.0) && Doubles(rounded, x / 2.0) && 2.0 * (x / 2.0) == x;
    n := (rounded(x / 2.0) * 2048.0).Floor;
  }

  lemma OneStepBelow(n: int, m: int)
    requires Steps(m) - 1.0 / 2048.0 <= Steps(n) < Steps(m)
    ensures n == m - 1
  {
  }

  lemma RoundedDownByAStep(rounded: real -> real, m: nat)
    requires Has24Bits(rounded) && 0x100_0000 < m <= 0x200_0000 && rounded(Steps(m)) < Steps(m)
    ensures rounded(Steps(m)) == Steps(m - 1)
  {
    var n := EvenSteps(rounded, Steps(m));
    ErrorIsAStep(rounded, Steps(m));
    OneStepBelow(2 * n, m);
  }

  lemma FallsShortNear(rounded: real -> real, before: nat, at: nat)
    requires Has24Bits(rounded) && 0x80_0000 <= before < 0x100_0000 && before < at
    requires 2 * at - before <= 0x200_0000
    requires Twice(rounded, Steps(before), Steps(at)) < Steps(at) * 2.0 - Steps(before)
    ensures FallsShort(rounded, Steps(before), Steps(at), 1.0 / 2048.0)
  {
    var m := 2 * at - before;
    assert Steps(at) * 2.0 - Steps(before) == Steps(m);
    assert KeepsStep(rounded, m);
    RoundedDownByAStep(rounded, m);
    assert Steps(m - 1) - Steps(at) == Steps(at - before - 1) && Steps(at) - Steps(before) == Steps(at - before);
    assert KeepsStep(rounded, at - before) && KeepsStep(rounded, at - before - 1);
  }

  lemma FallsShortFar(rounded: real -> real, before: real, at: real)
    requires Has24Bits(rounded) && 4096.0 <= before < 8192.0 && at * 2.0 - before > 16384.0
    ensures FallsShort(rounded, before, at, 1.0 / 2048.0)
  {
    var difference := at - before;
    RoundingIsClose(rounded, at * 2.0 - before);
    RoundingIsClose(rounded, difference);
    RoundingIsClose(rounded, Twice(rounded, before, at) - at);
  }

  lemma HalvedTwice(rounded: real -> real, before: real, at: real)
    ensures Twice(Halved(rounded), before / 2.0, at / 2.0) == Twice(rounded, before, at) / 2.0
  {
    assert 2.0 * (at / 2.0 * 2.0 - before / 2.0) == at * 2.0 - before;
  }

  lemma HalvedFallsShort(rounded: real -> real, before: real, at: real, step: real)
    requires FallsShort(Halved(rounded), before / 2.0, at / 2.0, step / 2.0)
    ensures FallsShort(rounded, before, at, step)
  {
    HalvedTwice(rounded, before, at);
    assert 2.0 * (at / 2.0 - before / 2.0) == at - before;
    var twice := Twice(rounded, before, at);
    assert 2.0 * (twice / 2.0 - at / 2.0) == twice - at;
  }

  lemma LowFallsShort(rounded: real -> real, before: real, at: real)
    requires Has24Bits(rounded) && rounded(before) == before && rounded(at) == at
    requires 4096.0 <= before < at && before < 8192.0
    requires Twice(rounded, before, at) < at * 2.0 - before
    ensures FallsShort(rounded, before, at, 1.0 / 2048.0)
  {
    if at * 2.0 - before > 16384.0 {
      FallsShortFar(rounded, before, at);
    } else {
      var n := FloatsAreSteps(rounded, before);
      var m := FloatsAreSteps(rounded, at);
      FallsShortNear(rounded, n, m);
    }
  }

  lemma {:induction false} RoundedDownFallsShort(rounded: real -> real, before: real, at: real)
    requires Has24Bits(rounded) && rounded(before) == before && rounded(at) == at && 4096.0 <= before < at
    requires Twice(rounded, before, at) < at * 2.0 - before
    ensures FallsShort(rounded, before, at, StepAt(before))
    decreases before.Floor
  {
    if before < 8192.0 {
      LowFallsShort(rounded, before, at);
    } else {
      var halved := Halved(rounded);
      HalvedHas24Bits(rounded);
      assert halved(before / 2.0) == before / 2.0 && halved(at / 2.0) == at / 2.0;
      HalvedTwice(rounded, before, at);
      RoundedDownFallsShort(halved, before / 2.0, at / 2.0);
      HalvedFallsShort(rounded, before, at, StepAt(before));
    }
  }
}
