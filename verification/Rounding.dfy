/** Float arithmetic: the exact result of each operation, rounded. */
module Rounding {

  /** The whole numbers up to which all are floats, of either width. */
  const F32_WHOLE := 0x100_0000
  const F64_WHOLE := 0x20_0000_0000_0000

  /**
    All that is used of a rounding: it keeps order and sign, and leaves alone whole numbers up to
    a bound, twice a float, and what is rounded already.
   */
  ghost predicate IsRounding(rounded: real -> real, whole: nat) {
    && (forall x, y :: KeepsOrder(rounded, x, y))
    && (forall x :: KeepsSign(rounded, x) && KeepsRounded(rounded, x) && KeepsWhole(rounded, whole, x))
  }

  predicate KeepsOrder(rounded: real -> real, x: real, y: real) {
    x <= y ==> rounded(x) <= rounded(y)
  }

  predicate KeepsSign(rounded: real -> real, x: real) {
    rounded(-x) == -rounded(x)
  }

  predicate KeepsRounded(rounded: real -> real, x: real) {
    rounded(rounded(x)) == rounded(x) && rounded(2.0 * rounded(x)) == 2.0 * rounded(x)
  }

  predicate KeepsWhole(rounded: real -> real, whole: nat, x: real) {
    0.0 <= x <= whole as real && x == x.Floor as real ==> rounded(x) == x
  }

  /**
    Rounding to 24 bits, from 4096 on: up to 8192 to the nearest of 2048 steps a unit, and twice as
    coarse with every doubling. The steps below 4096 are floats as well, among others.
   */
  ghost predicate Has24Bits(rounded: real -> real) {
    && (forall x, y :: KeepsOrder(rounded, x, y))
    && (forall n: nat :: KeepsStep(rounded, n))
    && (forall x :: IsNearStep(rounded, x) && IsOnStep(rounded, x) && Doubles(rounded, x))
  }

  /** A number of steps of 1/2048. */
  function Steps(n: int): real {
    n as real / 2048.0
  }

  predicate KeepsStep(rounded: real -> real, n: nat) {
    n <= 0x100_0000 ==> rounded(Steps(n)) == Steps(n)
  }

  predicate IsNearStep(rounded: real -> real, x: real) {
    0.0 <= x <= 8192.0 ==> -1.0 / 4096.0 <= rounded(x) - x <= 1.0 / 4096.0
  }

  predicate IsOnStep(rounded: real -> real, x: real) {
    4096.0 <= x <= 8192.0 ==> rounded(x) == Steps((rounded(x) * 2048.0).Floor)
  }

  predicate Doubles(rounded: real -> real, x: real) {
    4096.0 <= x ==> rounded(2.0 * x) == 2.0 * rounded(x)
  }

  /** The distance between neighbouring floats from a number up, for those of 4096 or more. */
  function StepAt(x: real): (step: real)
    ensures step >= 1.0 / 2048.0
    decreases x.Floor
  {
    if x < 8192.0 then 1.0 / 2048.0 else 2.0 * StepAt(x / 2.0)
  }

  /** No whole number up to the bound is passed. */
  lemma WholeBoundsAreKept(rounded: real -> real, whole: nat, x: real, n: nat)
    requires IsRounding(rounded, whole) && n <= whole
    ensures x <= n as real ==> rounded(x) <= n as real
    ensures x >= n as real ==> rounded(x) >= n as real
    ensures -(n as real) <= x ==> -(n as real) <= rounded(x)
    ensures x <= -(n as real) ==> rounded(x) <= -(n as real)
  {
    var y := n as real;
    assert KeepsWhole(rounded, whole, y) && KeepsSign(rounded, y);
    assert KeepsOrder(rounded, x, y) && KeepsOrder(rounded, y, x);
    assert KeepsOrder(rounded, x, -y) && KeepsOrder(rounded, -y, x);
  }

  // ---------------------------------------------------------------------------------------
  // Floats of 4096 and more
  // ---------------------------------------------------------------------------------------

  lemma HalfIsFloat(rounded: real -> real, x: real)
    requires Has24Bits(rounded) && rounded(x) == x && x >= 8192.0
    ensures rounded(x / 2.0) == x / 2.0
  {
    assert Doubles(rounded, x / 2.0) && 2.0 * (x / 2.0) == x;
  }

  /** Every float is a number of steps. */
  lemma {:induction false} FloatsAreSteps(rounded: real -> real, x: real) returns (n: nat)
    requires Has24Bits(rounded) && rounded(x) == x && x >= 4096.0
    ensures x == Steps(n)
    decreases x.Floor
  {
    if x <= 8192.0 {
      assert IsOnStep(rounded, x);
      n := (x * 2048.0).Floor;
    } else {
      HalfIsFloat(rounded, x);
      var half := FloatsAreSteps(rounded, x / 2.0);
      n := 2 * half;
    }
  }

  /** Rounding is off by no more than an eight-millionth. */
  lemma {:induction false} RoundingIsClose(rounded: real -> real, x: real)
    requires Has24Bits(rounded) && x >= 2048.0
    ensures -x / 8388608.0 <= rounded(x) - x <= x / 8388608.0
    decreases x.Floor
  {
    if x <= 8192.0 {
      assert IsNearStep(rounded, x);
    } else {
      RoundingIsClose(rounded, x / 2.0);
      assert Doubles(rounded, x / 2.0) && 2.0 * (x / 2.0) == x;
    }
  }

  /** The same rounding, of halves. */
  function Halved(rounded: real -> real): real -> real {
    (x: real) => rounded(2.0 * x) / 2.0
  }

  lemma HalvedAt(rounded: real -> real, x: real)
    requires Has24Bits(rounded)
    ensures x >= 4096.0 ==> Halved(rounded)(x) == rounded(x)
    ensures 0.0 <= x <= 4096.0 ==> -1.0 / 8192.0 <= Halved(rounded)(x) - x <= 1.0 / 8192.0
    ensures Doubles(Halved(rounded), x)
  {
    assert Doubles(rounded, x) && Doubles(rounded, 2.0 * x) && IsNearStep(rounded, 2.0 * x);
  }

  lemma HalvedKeepsStep(rounded: real -> real, n: nat)
    requires Has24Bits(rounded)
    ensures KeepsStep(Halved(rounded), n)
  {
    assert KeepsStep(rounded, n) && KeepsStep(rounded, 2 * n);
    assert 2.0 * Steps(n) == Steps(2 * n);
    HalvedAt(rounded, Steps(n));
  }

  lemma HalvedHas24Bits(rounded: real -> real)
    requires Has24Bits(rounded)
    ensures Has24Bits(Halved(rounded))
  {
    forall x, y ensures KeepsOrder(Halved(rounded), x, y) {
      assert KeepsOrder(rounded, 2.0 * x, 2.0 * y);
    }
    forall n: nat ensures KeepsStep(Halved(rounded), n) {
      HalvedKeepsStep(rounded, n);
    }
    forall x ensures IsNearStep(Halved(rounded), x) && IsOnStep(Halved(rounded), x) && Doubles(Halved(rounded), x) {
      HalvedAt(rounded, x);
      assert IsNearStep(rounded, x) && IsOnStep(rounded, x);
    }
  }

  // ---------------------------------------------------------------------------------------
  // A rounding
  // ---------------------------------------------------------------------------------------

  function Nearest(x: real): int {
    -((0.5 - x).Floor)
  }

  /** To 24 bits from 4096 on and to steps of 1/2048 below, the lower of two as near. */
  function Spaced(x: real): real {
    if x < 0.0 then -SpacedAbove(-x) else SpacedAbove(x)
  }

  function SpacedAbove(x: real): real
    decreases x.Floor
  {
    if x <= 8192.0 then Steps(Nearest(x * 2048.0)) else 2.0 * SpacedAbove(x / 2.0)
  }

  lemma NearestKeepsOrder(x: real, y: real)
    requires x <= y
    ensures Nearest(x) <= Nearest(y)
  {
  }

  lemma NearestKeepsWhole(n: int)
    ensures Nearest(n as real) == n
  {
  }

  lemma NearestIsNear(x: real)
    ensures x - 0.5 <= Nearest(x) as real <= x + 0.5
  {
  }

  lemma StepsAreKept(n: int)
    requires n <= 0x100_0000
    ensures SpacedAbove(Steps(n)) == Steps(n)
  {
    NearestKeepsWhole(n);
    assert Steps(n) * 2048.0 == n as real;
  }

  /** Up to 8192, the result is a step, and no lower than any step the number has reached. */
  lemma LowIsNearStep(x: real, n: int)
    requires x <= 8192.0
    ensures SpacedAbove(x) == Steps(Nearest(x * 2048.0))
    ensures Nearest(x * 2048.0) <= 0x100_0000
    ensures Steps(n) <= x ==> n <= Nearest(x * 2048.0)
    ensures -1.0 / 4096.0 <= SpacedAbove(x) - x <= 1.0 / 4096.0
  {
    NearestKeepsOrder(x * 2048.0, 16777216.0);
    NearestKeepsWhole(0x100_0000);
    NearestIsNear(x * 2048.0);
    if Steps(n) <= x {
      NearestKeepsOrder(n as real, x * 2048.0);
      NearestKeepsWhole(n);
    }
  }

  lemma {:induction false} HighStaysHigh(x: real)
    requires x >= 4096.0
    ensures SpacedAbove(x) >= 4096.0
    ensures x > 8192.0 ==> SpacedAbove(x) >= 8192.0
    decreases x.Floor
  {
    if x <= 8192.0 {
      LowIsNearStep(x, 0x80_0000);
    } else {
      HighStaysHigh(x / 2.0);
    }
  }

  lemma {:induction false} SpacedAboveKeepsOrder(x: real, y: real)
    requires x <= y
    ensures SpacedAbove(x) <= SpacedAbove(y)
    decreases y.Floor
  {
    if y <= 8192.0 {
      NearestKeepsOrder(x * 2048.0, y * 2048.0);
    } else if x <= 8192.0 {
      LowIsNearStep(x, 0);
      HighStaysHigh(y);
    } else {
      SpacedAboveKeepsOrder(x / 2.0, y / 2.0);
    }
  }

  lemma SpacedKeepsOrder(x: real, y: real)
    requires x <= y
    ensures Spaced(x) <= Spaced(y)
  {
    StepsAreKept(0);
    if y < 0.0 {
      SpacedAboveKeepsOrder(-y, -x);
    } else if x < 0.0 {
      SpacedAboveKeepsOrder(0.0, -x);
      SpacedAboveKeepsOrder(0.0, y);
    } else {
      SpacedAboveKeepsOrder(x, y);
    }
  }

  /** What is rounded is a float, and so is twice that. */
  lemma {:induction false} SpacedAboveIsKept(x: real)
    requires x >= 0.0
    ensures SpacedAbove(x) >= 0.0
    ensures SpacedAbove(SpacedAbove(x)) == SpacedAbove(x)
    ensures SpacedAbove(2.0 * SpacedAbove(x)) == 2.0 * SpacedAbove(x)
    decreases x.Floor
  {
    if x <= 8192.0 {
      var n := Nearest(x * 2048.0);
      LowIsNearStep(x, 0);
      StepsAreKept(n);
      assert 2.0 * Steps(n) == Steps(2 * n);
      if 2 * n <= 0x100_0000 {
        StepsAreKept(2 * n);
      }
    } else {
      HighStaysHigh(x);
      SpacedAboveIsKept(x / 2.0);
      StepsAreKept(0x100_0000);
    }
  }

  /** So many times doubled. */
  function Doubled(n: nat, times: nat): nat {
    if times == 0 then n else 2 * Doubled(n, times - 1)
  }

  lemma DoubledElevenTimes(n: nat)
    ensures Doubled(n, 11) == 2048 * n
  {
    assert Doubled(n, 1) == 2 * n;
    assert Doubled(n, 2) == 4 * n;
    assert Doubled(n, 4) == 16 * n;
    assert Doubled(n, 6) == 64 * n;
    assert Doubled(n, 8) == 256 * n;
    assert Doubled(n, 10) == 1024 * n;
  }

  lemma {:induction false} DoubledStepsAreKept(x: real, n: nat, times: nat)
    requires n <= 0x100_0000 && x == Steps(Doubled(n, times))
    ensures SpacedAbove(x) == x
    decreases times
  {
    if x <= 8192.0 {
      StepsAreKept(Doubled(n, times));
    } else {
      DoubledStepsAreKept(x / 2.0, n, times - 1);
    }
  }

  lemma WholeIsKept(n: nat)
    requires n <= 0x100_0000
    ensures SpacedAbove(n as real) == n as real
  {
    DoubledElevenTimes(n);
    DoubledStepsAreKept(n as real, n, 11);
  }

  lemma SpacedKeeps(x: real)
    ensures Spaced(-x) == -Spaced(x)
    ensures Spaced(Spaced(x)) == Spaced(x)
    ensures Spaced(2.0 * Spaced(x)) == 2.0 * Spaced(x)
    ensures 0.0 <= x <= 16777216.0 && x == x.Floor as real ==> Spaced(x) == x
  {
    StepsAreKept(0);
    SpacedAboveIsKept(if x < 0.0 then -x else x);
    if 0.0 <= x <= 16777216.0 && x == x.Floor as real {
      WholeIsKept(x.Floor);
    }
  }

  lemma StepsCount(n: int)
    ensures (Steps(n) * 2048.0).Floor == n
  {
    assert Steps(n) * 2048.0 == n as real;
  }

  lemma SpacedIsNearStep(x: real)
    requires 0.0 <= x <= 8192.0
    ensures -1.0 / 4096.0 <= Spaced(x) - x <= 1.0 / 4096.0
    ensures Spaced(x) == Steps((Spaced(x) * 2048.0).Floor)
  {
    LowIsNearStep(x, 0);
    StepsCount(Nearest(x * 2048.0));
  }

  lemma SpacedDoubles(x: real)
    requires 4096.0 <= x
    ensures Spaced(2.0 * x) == 2.0 * Spaced(x)
  {
    if x == 4096.0 {
      StepsAreKept(0x80_0000);
      StepsAreKept(0x100_0000);
    } else {
      assert 2.0 * x / 2.0 == x;
    }
  }

  /** There are such roundings, as narrow as `f32` where that matters. */
  lemma SpacedIsRounding()
    ensures IsRounding(x => Spaced(x), F32_WHOLE) && Has24Bits(x => Spaced(x))
  {
    var spaced := (x: real) => Spaced(x);
    forall x, y ensures KeepsOrder(spaced, x, y) {
      if x <= y {
        SpacedKeepsOrder(x, y);
      }
    }
    forall x ensures KeepsSign(spaced, x) && KeepsRounded(spaced, x) && KeepsWhole(spaced, F32_WHOLE, x) {
      SpacedKeeps(x);
    }
    forall n: nat ensures KeepsStep(spaced, n) {
      if n <= 0x100_0000 {
        StepsAreKept(n);
      }
    }
    forall x ensures IsNearStep(spaced, x) && IsOnStep(spaced, x) && Doubles(spaced, x) {
      if 0.0 <= x <= 8192.0 {
        SpacedIsNearStep(x);
      }
      if 4096.0 <= x {
        SpacedDoubles(x);
      }
    }
  }
}
