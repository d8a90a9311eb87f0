/**
  The peak condition of `do_peak_recognition`, over an unbounded history of power spectra
  instead of the two rings of 256 slots the generator keeps. Frames before the first block
  are zero, as are ring slots nothing has written.
 */
module Spectrogram {
  import opened Common

  /** The power in a bin (0 to 1024) of a frame; frame `t` is the one block `t` produces. */
  type History = (int, int) -> real

  const LAST_BIN := 1024
  const THRESHOLD := 1.0 / 64.0

  /** Bins of the spread spectrum three frames before the candidate, relative to its own. */
  const FREQUENCY_OFFSETS := [-10, -7, -4, -3, 1, 2, 5, 8]

  /** The other spread spectra a candidate must exceed, as frames relative to its own. */
  const TIME_OFFSETS := [-7, 1, -45, -38, -31, -24, -17, -10, 4, 11, 18, 25, 32, 39]

  /** One frame after each bin has been raised to the loudest of itself and the next two. */
  function SpreadBin(h: History, t: int, c: int): real {
    if c <= LAST_BIN - 2 then Max(Max(h(t, c), h(t, c + 1)), h(t, c + 2)) else h(t, c)
  }

  /** A spread spectrum once no later frame can raise it: frames t, t + 1, t + 3 and t + 6. */
  function Spread(h: History, t: int, c: int): real {
    Max(Max(Max(SpreadBin(h, t, c), SpreadBin(h, t + 1, c)), SpreadBin(h, t + 3, c)), SpreadBin(h, t + 6, c))
  }

  /** Strictly louder than the spread bins around it, three frames back. */
  predicate ExceedsAcrossFrequency(h: History, p: int, b: int) {
    forall i | 0 <= i < |FREQUENCY_OFFSETS| :: h(p, b) > Spread(h, p - 3, b + FREQUENCY_OFFSETS[i])
  }

  /** Strictly louder than its own spread bins in the other frames. */
  predicate ExceedsAcrossTime(h: History, p: int, b: int) {
    forall i | 0 <= i < |TIME_OFFSETS| :: h(p, b) > Spread(h, p + TIME_OFFSETS[i], b - 1)
  }

  /** What the code asks of bin `b` of frame `p` before it stores a peak. */
  predicate IsPeak(h: History, p: int, b: int) {
    && 10 <= b <= 1014
    && h(p, b) >= THRESHOLD
    && h(p, b) >= Spread(h, p - 3, b - 1)
    && ExceedsAcrossFrequency(h, p, b)
    && ExceedsAcrossTime(h, p, b)
  }

  // ---------------------------------------------------------------------------------------
  // The neighbourhood a peak dominates
  // ---------------------------------------------------------------------------------------

  /** Frames whose whole neighbourhood of ten bins either side the candidate is held against. */
  predicate Near(dt: int) {
    dt == -3 || dt == -2 || dt == 0 || dt == 3
  }

  /** Frames held against the candidate on its own bin and the one either side. */
  predicate Far(dt: int) {
    || dt == -7 || dt == -6 || dt == -4 || dt == -1
    || dt == 1 || dt == 2 || dt == 4 || dt == 7
    || (-45 <= dt <= 45 && !Near(dt) && (dt % 7 == 0 || dt % 7 == 3 || dt % 7 == 4 || dt % 7 == 5))
  }

  /** A peak is strictly louder than the bin this far away. */
  predicate StrictRival(dt: int, dc: int) {
    || (Near(dt) && dc != 0 && -10 <= dc <= 10)
    || (Far(dt) && -1 <= dc <= 1)
  }

  /** A peak is at least as loud as the bin this far away, and may be equal to it. */
  predicate WeakRival(dt: int, dc: int) {
    Near(dt) && dc == 0
  }

  /** The peak condition with the spreading, the offsets and the rings all unfolded. */
  ghost predicate Dominates(h: History, p: int, b: int) {
    && h(p, b) >= THRESHOLD
    && (forall q, c | StrictRival(q - p, c - b) :: h(q, c) < h(p, b))
    && (forall q, c | WeakRival(q - p, c - b) :: h(q, c) <= h(p, b))
  }

  /** The frames and bins a spread value is the maximum over. */
  predicate Covers(t: int, c: int, q: int, e: int) {
    (q == t || q == t + 1 || q == t + 3 || q == t + 6) && c <= e <= c + 2
  }

  lemma SpreadIsMaximum(h: History, t: int, c: int)
    requires c <= LAST_BIN - 2
    ensures forall q, e | Covers(t, c, q, e) :: h(q, e) <= Spread(h, t, c)
    ensures exists q, e :: Covers(t, c, q, e) && h(q, e) == Spread(h, t, c)
  {
    var q := if SpreadBin(h, t, c) == Spread(h, t, c) then t
             else if SpreadBin(h, t + 1, c) == Spread(h, t, c) then t + 1
             else if SpreadBin(h, t + 3, c) == Spread(h, t, c) then t + 3 else t + 6;
    var e := if h(q, c) == SpreadBin(h, q, c) then c else if h(q, c + 1) == SpreadBin(h, q, c) then c + 1 else c + 2;
    assert Covers(t, c, q, e) && h(q, e) == Spread(h, t, c);
  }

  /** Every far frame is one of the four that some time offset's spread spectrum covers. */
  lemma FarIsCovered(dt: int) returns (i: int)
    requires Far(dt)
    ensures 0 <= i < |TIME_OFFSETS|
    ensures Covers(TIME_OFFSETS[i], -1, dt, -1)
  {
    if dt == -7 || dt == -6 || dt == -4 || dt == -1 {
      i := 0;
    } else if dt == 1 || dt == 2 || dt == 4 || dt == 7 {
      i := 1;
    } else {
      var d := if dt % 7 == 4 then 0 else if dt % 7 == 5 then 1 else if dt % 7 == 0 then 3 else 6;
      i := if dt < 0 then 2 + (dt - d + 45) / 7 else 8 + (dt - d - 4) / 7;
    }
  }

  /** Every bin within ten of the candidate is one of the three that some frequency offset covers. */
  lemma NearIsCovered(dc: int) returns (i: int)
    requires dc != 0 && -10 <= dc <= 10
    ensures 0 <= i < |FREQUENCY_OFFSETS|
    ensures FREQUENCY_OFFSETS[i] <= dc <= FREQUENCY_OFFSETS[i] + 2
  {
    i := if dc <= -8 then 0 else if dc <= -5 then 1 else if dc <= -4 then 2 else if dc <= -1 then 3
         else if dc <= 3 then 4 else if dc == 4 then 5 else if dc <= 7 then 6 else 7;
  }

  lemma PeakExceedsNear(h: History, p: int, b: int, q: int, c: int)
    requires IsPeak(h, p, b)
    requires Near(q - p) && c != b && -10 <= c - b <= 10
    ensures h(q, c) < h(p, b)
  {
    var i := NearIsCovered(c - b);
    SpreadIsMaximum(h, p - 3, b + FREQUENCY_OFFSETS[i]);
    assert Covers(p - 3, b + FREQUENCY_OFFSETS[i], q, c);
  }

  lemma TimeOffsetIsExceeded(h: History, p: int, b: int, i: int, q: int, c: int)
    requires 0 <= i < |TIME_OFFSETS| && b <= 1014
    requires ExceedsAcrossTime(h, p, b)
    requires Covers(p + TIME_OFFSETS[i], b - 1, q, c)
    ensures h(q, c) < h(p, b)
  {
    SpreadIsMaximum(h, p + TIME_OFFSETS[i], b - 1);
  }

  lemma PeakExceedsFar(h: History, p: int, b: int, q: int, c: int)
    requires IsPeak(h, p, b)
    requires Far(q - p) && -1 <= c - b <= 1
    ensures h(q, c) < h(p, b)
  {
    var i := FarIsCovered(q - p);
    TimeOffsetIsExceeded(h, p, b, i, q, c);
  }

  lemma PeakExceedsStrictRivals(h: History, p: int, b: int)
    requires IsPeak(h, p, b)
    ensures forall q, c | StrictRival(q - p, c - b) :: h(q, c) < h(p, b)
  {
    forall q, c | StrictRival(q - p, c - b) ensures h(q, c) < h(p, b) {
      if Near(q - p) && c != b && -10 <= c - b <= 10 {
        PeakExceedsNear(h, p, b, q, c);
      } else {
        PeakExceedsFar(h, p, b, q, c);
      }
    }
  }

  lemma PeakDominates(h: History, p: int, b: int)
    requires IsPeak(h, p, b)
    ensures Dominates(h, p, b)
  {
    PeakExceedsStrictRivals(h, p, b);
    SpreadIsMaximum(h, p - 3, b - 1);
    forall q, c | WeakRival(q - p, c - b) ensures h(q, c) <= h(p, b) {
      assert Covers(p - 3, b - 1, q, c);
    }
  }

  lemma FrequencyOffsetIsNear(i: int, dt: int, dc: int)
    requires 0 <= i < |FREQUENCY_OFFSETS|
    requires Covers(-3, FREQUENCY_OFFSETS[i], dt, dc)
    ensures StrictRival(dt, dc) && -10 <= FREQUENCY_OFFSETS[i] <= 8
  {
  }

  lemma TimeOffsetIsFar(i: int, dt: int, dc: int)
    requires 0 <= i < |TIME_OFFSETS|
    requires Covers(TIME_OFFSETS[i], -1, dt, dc)
    ensures StrictRival(dt, dc)
  {
  }

  lemma SpreadIsBelow(h: History, p: int, b: int, t: int, c: int)
    requires Dominates(h, p, b) && c <= LAST_BIN - 2
    requires forall q, e | Covers(t - p, c - b, q, e) :: StrictRival(q, e)
    ensures Spread(h, t, c) < h(p, b)
  {
    SpreadIsMaximum(h, t, c);
    var q, e :| Covers(t, c, q, e) && h(q, e) == Spread(h, t, c);
    assert Covers(t - p, c - b, q - p, e - b);
  }

  lemma DominantAcrossFrequency(h: History, p: int, b: int)
    requires 10 <= b <= 1014 && Dominates(h, p, b)
    ensures ExceedsAcrossFrequency(h, p, b)
  {
    forall i | 0 <= i < |FREQUENCY_OFFSETS| ensures h(p, b) > Spread(h, p - 3, b + FREQUENCY_OFFSETS[i]) {
      forall dt, dc | Covers(-3, FREQUENCY_OFFSETS[i], dt, dc) ensures StrictRival(dt, dc) {
        FrequencyOffsetIsNear(i, dt, dc);
      }
      FrequencyOffsetIsNear(i, -3, FREQUENCY_OFFSETS[i]);
      SpreadIsBelow(h, p, b, p - 3, b + FREQUENCY_OFFSETS[i]);
    }
  }

  lemma DominantAcrossTime(h: History, p: int, b: int)
    requires 10 <= b <= 1014 && Dominates(h, p, b)
    ensures ExceedsAcrossTime(h, p, b)
  {
    forall i | 0 <= i < |TIME_OFFSETS| ensures h(p, b) > Spread(h, p + TIME_OFFSETS[i], b - 1) {
      forall dt, dc | Covers(TIME_OFFSETS[i], -1, dt, dc) ensures StrictRival(dt, dc) {
        TimeOffsetIsFar(i, dt, dc);
      }
      SpreadIsBelow(h, p, b, p + TIME_OFFSETS[i], b - 1);
    }
  }

  lemma DominantIsPeak(h: History, p: int, b: int)
    requires 10 <= b <= 1014 && Dominates(h, p, b)
    ensures IsPeak(h, p, b)
  {
    DominantAcrossFrequency(h, p, b);
    DominantAcrossTime(h, p, b);
    SpreadIsMaximum(h, p - 3, b - 1);
    var q, c :| Covers(p - 3, b - 1, q, c) && h(q, c) == Spread(h, p - 3, b - 1);
    assert if c == b then WeakRival(q - p, c - b) else StrictRival(q - p, c - b);
  }

  /** The offsets and the two kinds of spreading come to exactly the neighbourhood above. */
  lemma PeakIffDominates(h: History, p: int, b: int)
    requires 10 <= b <= 1014
    ensures IsPeak(h, p, b) <==> Dominates(h, p, b)
  {
    if IsPeak(h, p, b) {
      PeakDominates(h, p, b);
    } else if Dominates(h, p, b) {
      DominantIsPeak(h, p, b);
    }
  }

  // ---------------------------------------------------------------------------------------
  // Consequences
  // ---------------------------------------------------------------------------------------

  lemma PeakIsStrictLocalMaximum(h: History, p: int, b: int)
    requires IsPeak(h, p, b)
    ensures forall c | b - 10 <= c <= b + 10 && c != b :: h(p, c) < h(p, b)
  {
    PeakDominates(h, p, b);
    forall c | b - 10 <= c <= b + 10 && c != b ensures h(p, c) < h(p, b) {
      assert StrictRival(p - p, c - b);
    }
  }

  /**
    Which two peaks cannot both be stored, by how far apart they are: within ten bins in one
    frame, or three frames apart (where the very same bin at the very same power can repeat),
    and within one bin at the other distances both of them look across.
   */
  predicate Excluded(dt: int, dc: int) {
    || ((dt == 0 || dt == 3) && dc != 0 && -10 <= dc <= 10)
    || ((dt == 1 || dt == 2 || (4 <= dt <= 45 && (dt % 7 == 0 || dt % 7 == 3 || dt % 7 == 4))) && -1 <= dc <= 1)
  }

  /** Excluded means that each looks across at the other and at least one of them strictly. */
  lemma ExcludedIsMutual(dt: int, dc: int)
    requires 0 <= dt && (dt, dc) != (0, 0)
    ensures Excluded(dt, dc) <==>
              && (StrictRival(dt, dc) || WeakRival(dt, dc))
              && (StrictRival(-dt, -dc) || WeakRival(-dt, -dc))
              && (StrictRival(dt, dc) || StrictRival(-dt, -dc))
  {
  }

  lemma PeaksKeepApart(h: History, p: int, b: int, q: int, c: int)
    requires p <= q && (p, b) != (q, c)
    requires IsPeak(h, p, b) && IsPeak(h, q, c)
    ensures !Excluded(q - p, c - b)
  {
    PeakDominates(h, p, b);
    PeakDominates(h, q, c);
    ExcludedIsMutual(q - p, c - b);
    assert -(q - p) == p - q && -(c - b) == b - c;
  }

  lemma LoneBinIsPeak(h: History, p: int, b: int, q: int, c: int)
    requires 10 <= b <= 1014 && h(p, b) >= THRESHOLD
    requires forall t, e | (t, e) != (p, b) && (t, e) != (q, c) :: h(t, e) == 0.0
    requires StrictRival(q - p, c - b) ==> h(q, c) < h(p, b)
    requires WeakRival(q - p, c - b) ==> h(q, c) <= h(p, b)
    ensures IsPeak(h, p, b)
  {
    assert !StrictRival(p - p, b - b);
    DominantIsPeak(h, p, b);
  }

  /** Alone in its spectrogram, a bin is a peak from a power of 1/64 on. */
  lemma LoneBinIsPeakIff(h: History, p: int, b: int)
    requires 10 <= b <= 1014 && forall t, e | (t, e) != (p, b) :: h(t, e) == 0.0
    ensures IsPeak(h, p, b) <==> h(p, b) >= 1.0 / 64.0
  {
    if h(p, b) >= 1.0 / 64.0 {
      assert !StrictRival(p - p, b - b);
      DominantIsPeak(h, p, b);
    }
  }

  /** Nothing more is excluded: at any other distance some spectrogram has both peaks. */
  lemma OnlyTheseAreExcluded(p: int, b: int, q: int, c: int) returns (h: History)
    requires p <= q && 10 <= b <= 1014 && 10 <= c <= 1014
    requires (p, b) != (q, c) && !Excluded(q - p, c - b)
    ensures forall t, e :: h(t, e) >= 0.0
    ensures IsPeak(h, p, b) && IsPeak(h, q, c)
  {
    ExcludedIsMutual(q - p, c - b);
    assert -(q - p) == p - q && -(c - b) == b - c;
    var y := if StrictRival(q - p, c - b) then 1.0 else if StrictRival(p - q, b - c) then 3.0 else 2.0;
    h := (t: int, e: int) => if t == p && e == b then 2.0 else if t == q && e == c then y else 0.0;
    LoneBinIsPeak(h, p, b, q, c);
    LoneBinIsPeak(h, q, c, p, b);
  }

  /** Equal, or both too quiet to matter. */
  predicate SameOrQuiet(x: real, y: real) {
    x == y || (x < THRESHOLD && y < THRESHOLD)
  }

  lemma RivalsAreClose(dt: int, dc: int)
    requires StrictRival(dt, dc) || WeakRival(dt, dc)
    ensures -45 <= dt <= 45 && -10 <= dc <= 10
  {
  }

  /** Frame p + dt of `h` is frame r + dt of `g` in this bin. */
  predicate AgreeAt(h: History, p: int, g: History, r: int, dt: int, c: int) {
    SameOrQuiet(h(p + dt, c), g(r + dt, c))
  }

  /** They agree all over the neighbourhood of bin b. */
  ghost predicate Alike(h: History, p: int, g: History, r: int, b: int) {
    forall dt, c | -45 <= dt <= 45 && b - 10 <= c <= b + 10 :: AgreeAt(h, p, g, r, dt, c)
  }

  lemma AlikeDominates(h: History, p: int, g: History, r: int, b: int)
    requires Alike(h, p, g, r, b) && Dominates(h, p, b)
    ensures Dominates(g, r, b)
  {
    assert AgreeAt(h, p, g, r, 0, b);
    forall q, c | StrictRival(q - r, c - b) || WeakRival(q - r, c - b)
      ensures StrictRival(q - r, c - b) ==> g(q, c) < g(r, b)
      ensures WeakRival(q - r, c - b) ==> g(q, c) <= g(r, b)
    {
      RivalsAreClose(q - r, c - b);
      var dt := q - r;
      assert AgreeAt(h, p, g, r, dt, c) && (p + dt) - p == q - r && r + dt == q;
      assert StrictRival(q - r, c - b) ==> h(p + dt, c) < h(p, b);
      assert WeakRival(q - r, c - b) ==> h(p + dt, c) <= h(p, b);
    }
  }

  /**
    Whether a bin is a peak depends on frames p - 45 to p + 45 and bins b - 10 to b + 10 alone,
    and not on how quiet the quiet ones are.
   */
  lemma PeakIsLocal(h: History, p: int, g: History, r: int, b: int)
    requires Alike(h, p, g, r, b)
    ensures IsPeak(h, p, b) <==> IsPeak(g, r, b)
  {
    if IsPeak(h, p, b) {
      PeakDominates(h, p, b);
      AlikeDominates(h, p, g, r, b);
      DominantIsPeak(g, r, b);
    }
    if IsPeak(g, r, b) {
      forall dt, c | -45 <= dt <= 45 && b - 10 <= c <= b + 10 ensures AgreeAt(g, r, h, p, dt, c) {
        assert AgreeAt(h, p, g, r, dt, c);
      }
      PeakDominates(g, r, b);
      AlikeDominates(g, r, h, p, b);
      DominantIsPeak(h, p, b);
    }
  }
}
