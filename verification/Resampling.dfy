/**
  Resampling to 16 kHz as frames arrive, and why that is the same as resampling the whole clip:
  the chunking, the trim of the filter's delay and the final flush. The sinc filter is any
  deterministic machine whose full calls take 1024 frames.
 */
module Resampling {
  import opened Common
  import opened Rounding

  const CHUNK_FRAMES := 1024

  datatype Error = Refused(reason: string)

  /** A full call takes a chunk; a partial one takes what it is given and pads it with silence. */
  datatype Call = Full(chunk: seq<real>) | Partial(frames: seq<real>)

  datatype Step<+S> = Produced(next: S, frames: seq<real>) | Refusal(error: Error)

  /** The filter, and the two widths of float arithmetic its ratio and its frames are scaled in. */
  datatype Resampler<!S(!new)> = Resampler(
    ratio: real,
    delay: nat,
    initial: S,
    process: (S, Call) -> Step<S>,
    rounded: real -> real,
    wide: real -> real
  ) {

    /** A call with nothing to take still pushes something out of the filter. */
    ghost predicate Lawful() {
      && ratio >= 0.0
      && IsRounding(rounded, F32_WHOLE) && IsRounding(wide, F64_WHOLE)
      && forall s | process(s, Partial([])).Produced? :: |process(s, Partial([])).frames| > 0
    }

    /** A frame count times the ratio. */
    function Scaled(frames: nat): real {
      ratio * wide(frames as real)
    }

    /** The length of a resampled clip of so many frames: a negative one would be cast to none. */
    function OutputLength(frames: nat): nat {
      var length := Ceiling(wide(Scaled(frames)));
      if length < 0 then 0 else length
    }

    /** A frame as a 16-bit sample: scaled, truncated, saturated. */
    function Sample(frame: real): i16 {
      Clamped(Truncated(rounded(frame * 32767.0)), -0x8000, 0x7fff)
    }

    function Samples(frames: seq<real>): (samples: seq<i16>)
      ensures |samples| == |frames|
    {
      seq(|frames|, i requires 0 <= i < |frames| => Sample(frames[i]))
    }
  }

  /** The least integer that is not less. */
  function Ceiling(x: real): (n: int)
    ensures x <= n as real < x + 1.0
  {
    -((-x).Floor)
  }

  /** Rounded, a number stays between the whole ones either side of it, and keeps whole if it is. */
  lemma RoundedBetweenWhole(rounded: real -> real, whole: nat, x: real) returns (n: nat)
    requires IsRounding(rounded, whole) && 0.0 <= x <= whole as real
    ensures n as real <= x < n as real + 1.0 && n <= whole
    ensures n as real <= rounded(x) <= n as real + 1.0
    ensures x == n as real ==> rounded(x) == x
  {
    n := x.Floor;
    WholeBoundsAreKept(rounded, whole, x, n);
    if x > n as real {
      WholeBoundsAreKept(rounded, whole, x, n + 1);
    }
  }

  lemma CeilingIsBetween(x: real, n: int)
    requires n as real <= x <= n as real + 1.0
    ensures n <= Ceiling(x) <= n + 1 && (x == n as real ==> Ceiling(x) == n)
  {
  }

  /** While its frames are whole floats, a clip is less than a frame off the ratio, short only if that rounds down. */
  lemma LengthIsNearTheRatio<S(!new)>(r: Resampler<S>, frames: nat)
    requires r.Lawful() && frames <= F64_WHOLE && r.ratio * frames as real <= F64_WHOLE as real
    ensures r.ratio * frames as real - 1.0 < r.OutputLength(frames) as real < r.ratio * frames as real + 1.0
    ensures r.wide(r.ratio * frames as real) >= r.ratio * frames as real ==>
              r.ratio * frames as real <= r.OutputLength(frames) as real
  {
    assert KeepsWhole(r.wide, F64_WHOLE, frames as real);
    assert r.Scaled(frames) == r.ratio * frames as real >= 0.0;
    var n := RoundedBetweenWhole(r.wide, F64_WHOLE, r.Scaled(frames));
    CeilingIsBetween(r.wide(r.Scaled(frames)), n);
  }

  /** Past that, clips whose frame counts round to one float come out equally long. */
  lemma LengthIsOfRoundedCount<S(!new)>(r: Resampler<S>, frames: nat, others: nat)
    requires r.wide(frames as real) == r.wide(others as real)
    ensures r.OutputLength(frames) == r.OutputLength(others)
  {
    assert r.Scaled(frames) == r.Scaled(others);
  }

  /** A louder frame never makes a smaller sample. */
  lemma SamplesKeepOrder<S(!new)>(r: Resampler<S>, x: real, y: real)
    requires r.Lawful() && x <= y
    ensures r.Sample(x) <= r.Sample(y)
  {
    assert KeepsOrder(r.rounded, x * 32767.0, y * 32767.0);
  }

  lemma TruncatedIsBetween(x: real, n: nat)
    requires n as real <= x <= n as real + 1.0
    ensures n <= Truncated(x) <= n + 1 && (x == n as real ==> Truncated(x) == n)
    ensures Truncated(-x) == -Truncated(x)
  {
  }

  lemma SampleOfPositive<S(!new)>(r: Resampler<S>, frame: real)
    requires r.Lawful() && 0.0 <= frame <= 1.0
    ensures frame * 32767.0 - 1.0 < r.Sample(frame) as real < frame * 32767.0 + 1.0
    ensures r.Sample(-frame) == -r.Sample(frame)
  {
    var exact := frame * 32767.0;
    var n := RoundedBetweenWhole(r.rounded, F32_WHOLE, exact);
    TruncatedIsBetween(r.rounded(exact), n);
    assert KeepsSign(r.rounded, exact) && (-frame) * 32767.0 == -exact;
    WholeBoundsAreKept(r.rounded, F32_WHOLE, exact, 32767);
  }

  /** And of what the product rounds to, a sample is the whole part, toward zero. */
  lemma SamplesAreTruncated<S(!new)>(r: Resampler<S>, frame: real)
    requires r.Lawful() && 0.0 <= frame <= 1.0
    ensures r.Sample(frame) as real <= r.rounded(frame * 32767.0) < r.Sample(frame) as real + 1.0
  {
    WholeBoundsAreKept(r.rounded, F32_WHOLE, frame * 32767.0, 0);
    WholeBoundsAreKept(r.rounded, F32_WHOLE, frame * 32767.0, 32767);
  }

  lemma SampleOfLoud<S(!new)>(r: Resampler<S>, frame: real)
    requires r.Lawful()
    ensures frame >= 1.0 ==> r.Sample(frame) == 0x7fff
    ensures frame * 32767.0 <= -32768.0 ==> r.Sample(frame) == -0x8000
  {
    WholeBoundsAreKept(r.rounded, F32_WHOLE, frame * 32767.0, 32767);
    WholeBoundsAreKept(r.rounded, F32_WHOLE, frame * 32767.0, 32768);
  }

  /** Frames within full scale are less than a step off, with their sign, and those beyond it clipped. */
  lemma SamplesAreWithinAStep<S(!new)>(r: Resampler<S>, frame: real)
    requires r.Lawful()
    ensures -1.0 <= frame <= 1.0 ==>
              && frame * 32767.0 - 1.0 < r.Sample(frame) as real < frame * 32767.0 + 1.0
              && r.Sample(-frame) == -r.Sample(frame)
    ensures frame >= 1.0 ==> r.Sample(frame) == 0x7fff
    ensures frame <= -32768.0 / 32767.0 ==> r.Sample(frame) == -0x8000
  {
    if 0.0 <= frame <= 1.0 {
      SampleOfPositive(r, frame);
    } else if -1.0 <= frame < 0.0 {
      SampleOfPositive(r, -frame);
      assert -(-frame) == frame;
    }
    SampleOfLoud(r, frame);
  }

  /** What is left of everything produced once the filter's delay is dropped from its front. */
  function Trimmed(produced: seq<i16>, delay: nat): (output: seq<i16>)
    ensures |output| == if |produced| < delay then 0 else |produced| - delay
  {
    produced[Min(delay, |produced|)..]
  }

  // ---------------------------------------------------------------------------------------
  // The whole clip at once
  // ---------------------------------------------------------------------------------------

  datatype Run<+S> = Running(state: S, produced: seq<i16>) | Broken(error: Error)

  function Called<S(!new)>(r: Resampler<S>, run: Run<S>, call: Call): Run<S> {
    if run.Broken? then run
    else
      match r.process(run.state, call)
      case Refusal(error) => Broken(error)
      case Produced(next, frames) => Running(next, run.produced + r.Samples(frames))
  }

  /** How many full chunks a clip is read in: one is always left, whole or not, for the last call. */
  function FullChunks(frames: nat): nat {
    if frames == 0 then 0 else (frames - 1) / CHUNK_FRAMES
  }

  function Chunk(clip: seq<real>, i: nat): seq<real>
    requires CHUNK_FRAMES * (i + 1) <= |clip|
  {
    clip[CHUNK_FRAMES * i..CHUNK_FRAMES * (i + 1)]
  }

  /** The run over the first so many chunks of a clip. */
  function AfterChunks<S(!new)>(r: Resampler<S>, clip: seq<real>, chunks: nat): Run<S>
    requires CHUNK_FRAMES * chunks <= |clip|
  {
    if chunks == 0 then Running(r.initial, [])
    else Called(r, AfterChunks(r, clip, chunks - 1), Full(Chunk(clip, chunks - 1)))
  }

  function AfterTail<S(!new)>(r: Resampler<S>, run: Run<S>, tail: seq<real>): Run<S> {
    if tail == [] then run else Called(r, run, Partial(tail))
  }

  /** Silence pumped through until the clip is as long as it has to be. */
  ghost function AfterFlush<S(!new)>(r: Resampler<S>, run: Run<S>, length: nat): Run<S>
    requires r.Lawful()
    decreases if run.Running? then r.delay + length - |run.produced| else 0
  {
    if run.Broken? || |Trimmed(run.produced, r.delay)| >= length then run
    else if r.process(run.state, Partial([])).Refusal? then Called(r, run, Partial([]))
    else AfterFlush(r, Called(r, run, Partial([])), length)
  }

  /** Everything a run produced, less the delay and what exceeds the length. */
  function Cut<S>(run: Run<S>, delay: nat, length: nat): Result<seq<i16>, Error> {
    match run
    case Broken(error) => Failure(error)
    case Running(_, produced) => Success(Trimmed(produced, delay)[..Min(length, |Trimmed(produced, delay)|)])
  }

  lemma {:induction false} FlushReachesLength<S(!new)>(r: Resampler<S>, run: Run<S>, length: nat)
    requires r.Lawful()
    ensures var flushed := AfterFlush(r, run, length);
            flushed.Running? ==> |Trimmed(flushed.produced, r.delay)| >= length
    decreases if run.Running? then r.delay + length - |run.produced| else 0
  {
    if run.Running? && |Trimmed(run.produced, r.delay)| < length && r.process(run.state, Partial([])).Produced? {
      FlushReachesLength(r, Called(r, run, Partial([])), length);
    }
  }

  /** The run over a whole clip: its full chunks, what is left, and silence up to the length. */
  ghost function Flushed<S(!new)>(r: Resampler<S>, clip: seq<real>): Run<S>
    requires r.Lawful()
  {
    var chunks := FullChunks(|clip|);
    AfterFlush(r, AfterTail(r, AfterChunks(r, clip, chunks), clip[CHUNK_FRAMES * chunks..]), r.OutputLength(|clip|))
  }

  ghost function WholeClip<S(!new)>(r: Resampler<S>, clip: seq<real>): Result<seq<i16>, Error>
    requires r.Lawful()
  {
    Cut(Flushed(r, clip), r.delay, r.OutputLength(|clip|))
  }

  /**
    A clip that resamples comes out exactly as long as the ratio says, and is the stretch of
    that length of everything the filter's run produced that starts where its delay ends.
   */
  lemma WholeClipIsAStretch<S(!new)>(r: Resampler<S>, clip: seq<real>) returns (produced: seq<i16>)
    requires r.Lawful() && WholeClip(r, clip).Success?
    ensures Flushed(r, clip).Running? && produced == Flushed(r, clip).produced
    ensures var length := r.OutputLength(|clip|);
            && |WholeClip(r, clip).value| == length
            && (length > 0 ==>
                  && r.delay + length <= |produced|
                  && WholeClip(r, clip).value == produced[r.delay..r.delay + length])
  {
    var chunks, length := FullChunks(|clip|), r.OutputLength(|clip|);
    var run := AfterTail(r, AfterChunks(r, clip, chunks), clip[CHUNK_FRAMES * chunks..]);
    FlushReachesLength(r, run, length);
    produced := AfterFlush(r, run, length).produced;
  }

  // ---------------------------------------------------------------------------------------
  // The clip a piece at a time
  // ---------------------------------------------------------------------------------------

  lemma {:induction false} ChunksOfAPrefix<S(!new)>(r: Resampler<S>, front: seq<real>, back: seq<real>, chunks: nat)
    requires CHUNK_FRAMES * chunks <= |front|
    ensures AfterChunks(r, front + back, chunks) == AfterChunks(r, front, chunks)
  {
    if chunks > 0 {
      ChunksOfAPrefix(r, front, back, chunks - 1);
      assert Chunk(front + back, chunks - 1) == Chunk(front, chunks - 1);
    }
  }

  lemma {:induction false} BrokenStaysBroken<S(!new)>(r: Resampler<S>, clip: seq<real>, early: nat, late: nat)
    requires early <= late && CHUNK_FRAMES * late <= |clip| && AfterChunks(r, clip, early).Broken?
    ensures AfterChunks(r, clip, late) == AfterChunks(r, clip, early)
  {
    if early < late {
      BrokenStaysBroken(r, clip, early, late - 1);
    }
  }

  /** A whole chunk with more behind it is a full one; with no more than a chunk left, all of those are done. */
  lemma ChunksFit(frames: nat, chunks: nat)
    requires CHUNK_FRAMES * chunks <= frames
    ensures frames - CHUNK_FRAMES * chunks > CHUNK_FRAMES ==> chunks + 1 <= FullChunks(frames)
    ensures frames - CHUNK_FRAMES * chunks <= CHUNK_FRAMES ==>
              (chunks > 0 ==> frames > CHUNK_FRAMES * chunks) ==> chunks == FullChunks(frames)
  {
  }

  class Resampling<S(!new)> {
    const resampler: Resampler<S>
    ghost var received: seq<real>
    ghost var produced: seq<i16>

    var state: S
    var stagedFrames: seq<real>
    var output: seq<i16>
    var inputFrameCount: nat
    var framesToTrim: nat

    /** What has been taken so far, with some chunks of it resampled and the rest staged. */
    ghost predicate Holds(chunks: nat)
      reads this
    {
      && inputFrameCount == |received|
      && CHUNK_FRAMES * chunks <= |received| && (chunks > 0 ==> CHUNK_FRAMES * chunks < |received|)
      && stagedFrames == received[CHUNK_FRAMES * chunks..]
      && AfterChunks(resampler, received, chunks) == Running(state, produced)
      && Delayed()
    }

    /** The output is everything produced with the first `delay` frames dropped, or dropped so far. */
    ghost predicate Delayed()
      reads this
    {
      && output == Trimmed(produced, resampler.delay)
      && framesToTrim == resampler.delay - Min(resampler.delay, |produced|)
    }

    /** Between calls every chunk but the last is done: between 1 and 1024 frames are staged, once there are any. */
    ghost predicate Valid()
      reads this
    {
      Holds(FullChunks(|received|))
    }

    lemma StagedIsAtMostAChunk()
      requires Valid()
      ensures received == [] ==> stagedFrames == []
      ensures received != [] ==> 1 <= |stagedFrames| <= 1024
    {
      var n := |received|;
      var done := CHUNK_FRAMES * ((n - 1) / CHUNK_FRAMES);
      assert n > 0 ==> done < n <= done + CHUNK_FRAMES;
    }

    constructor (resampler: Resampler<S>)
      ensures this.resampler == resampler && received == [] && Valid()
    {
      this.resampler, received, produced := resampler, [], [];
      state, stagedFrames, output := resampler.initial, [], [];
      inputFrameCount, framesToTrim := 0, resampler.delay;
    }

    /** Once a call's frames are behind the output, drops what the delay still claims of it. */
    method TrimStartupDelay(ghost frames: seq<i16>)
      requires output == Trimmed(produced, resampler.delay) + frames
      requires framesToTrim == resampler.delay - Min(resampler.delay, |produced|)
      modifies `output, `framesToTrim, `produced
      ensures produced == old(produced) + frames && Delayed()
    {
      var trimmedFrames := Min(framesToTrim, |output|);
      output := output[trimmedFrames..];
      framesToTrim := framesToTrim - trimmedFrames;
      produced := produced + frames;
    }

    /** What a call reads of the staged frames: a chunk of them, or as many as it says. */
    ghost function CallFor(partialFrames: Option<nat>): Call
      requires |stagedFrames| >= partialFrames.GetOr(CHUNK_FRAMES)
      reads this
    {
      match partialFrames
      case None => Full(stagedFrames[..CHUNK_FRAMES])
      case Some(count) => Partial(stagedFrames[..count])
    }

    /** Steps the run by one call on what is staged, a chunk of it or as much as it says, or refuses as the filter. */
    method ResampleChunk(partialFrames: Option<nat>) returns (r: Result<nat, Error>)
      requires Delayed() && |stagedFrames| >= partialFrames.GetOr(CHUNK_FRAMES)
      modifies `state, `output, `framesToTrim, `produced
      ensures Delayed()
      ensures match Called(resampler, Running(old(state), old(produced)), old(CallFor(partialFrames)))
              case Running(s, p) => r == Success(partialFrames.GetOr(CHUNK_FRAMES)) && state == s && produced == p
              case Broken(error) => r == Failure(error)
    {
      var taken := partialFrames.GetOr(CHUNK_FRAMES);
      var call := if partialFrames.None? then Full(stagedFrames[..taken]) else Partial(stagedFrames[..taken]);
      match resampler.process(state, call)
      case Refusal(error) =>
        r := Failure(error);
      case Produced(next, frames) =>
        state := next;
        output := output + resampler.Samples(frames);
        TrimStartupDelay(resampler.Samples(frames));
        r := Success(taken);
    }

    /** Adds to what was received, and brings the run up to all its chunks but the last. */
    method Push(monoFrames: seq<real>) returns (r: Result<(), Error>)
      requires Valid()
      modifies this
      ensures received == old(received) + monoFrames
      ensures r.Success? ==> Valid()
      ensures r.Failure? ==> AfterChunks(resampler, received, FullChunks(|received|)) == Broken(r.error)
    {
      ghost var chunks: nat := Stage(monoFrames);

      while |stagedFrames| > CHUNK_FRAMES
        invariant received == old(received) + monoFrames
        invariant Holds(chunks)
        decreases |stagedFrames|
      {
        ChunksFit(|received|, chunks);
        assert stagedFrames[..CHUNK_FRAMES] == Chunk(received, chunks);
        var consumedFrames := ResampleChunk(None);
        chunks := chunks + 1;
        if consumedFrames.Failure? {
          BrokenStaysBroken(resampler, received, chunks, FullChunks(|received|));
          return Failure(consumedFrames.error);
        }
        stagedFrames := stagedFrames[consumedFrames.value..];
      }
      ChunksFit(|received|, chunks);
      return Success(());
    }

    /** Puts frames behind those already staged. */
    method Stage(monoFrames: seq<real>) returns (ghost chunks: nat)
      requires Valid()
      modifies `stagedFrames, `inputFrameCount, `received
      ensures received == old(received) + monoFrames && Holds(chunks)
    {
      chunks := FullChunks(|received|);
      ChunksOfAPrefix(resampler, received, monoFrames, chunks);
      stagedFrames := stagedFrames + monoFrames;
      inputFrameCount := inputFrameCount + |monoFrames|;
      received := received + monoFrames;
      assert stagedFrames == received[CHUNK_FRAMES * chunks..];
    }

    /** Everything received, as one clip comes out of the filter. */
    method Finish() returns (r: Result<seq<i16>, Error>)
      requires Valid() && resampler.Lawful()
      modifies this
      ensures r == WholeClip(resampler, old(received))
    {
      var outputFrameCount := resampler.OutputLength(inputFrameCount);
      if |stagedFrames| > 0 {
        assert stagedFrames[..|stagedFrames|] == stagedFrames;
        var resampled := ResampleChunk(Some(|stagedFrames|));
        if resampled.Failure? {
          return Failure(resampled.error);
        }
        stagedFrames := [];
      }
      r := Flush(outputFrameCount);
    }

    /** Pumps silence until the output is long enough, and cuts it there. */
    method Flush(outputFrameCount: nat) returns (r: Result<seq<i16>, Error>)
      requires Delayed() && resampler.Lawful() && stagedFrames == []
      modifies this
      ensures r == Cut(AfterFlush(resampler, Running(old(state), old(produced)), outputFrameCount),
                       resampler.delay, outputFrameCount)
    {
      while |output| < outputFrameCount
        invariant Delayed() && stagedFrames == []
        invariant AfterFlush(resampler, Running(state, produced), outputFrameCount)
               == AfterFlush(resampler, Running(old(state), old(produced)), outputFrameCount)
        decreases resampler.delay + outputFrameCount - |produced|
      {
        assert CallFor(Some(0)) == Partial([]);
        var resampled := ResampleChunk(Some(0));
        if resampled.Failure? {
          return Failure(resampled.error);
        }
      }
      output := output[..outputFrameCount];
      return Success(output);
    }
  }

  /** A refusal part-way through a stream is the refusal of the whole clip. */
  lemma RefusedEarly<S(!new)>(r: Resampler<S>, front: seq<real>, back: seq<real>)
    requires r.Lawful() && AfterChunks(r, front, FullChunks(|front|)).Broken?
    ensures WholeClip(r, front + back) == Failure(AfterChunks(r, front, FullChunks(|front|)).error)
  {
    ChunksOfAPrefix(r, front, back, FullChunks(|front|));
    BrokenStaysBroken(r, front + back, FullChunks(|front|), FullChunks(|front + back|));
  }

  lemma RefusedAtPiece<S(!new)>(r: Resampler<S>, pieces: seq<seq<real>>, i: nat, error: Error)
    requires r.Lawful() && i <= |pieces|
    requires AfterChunks(r, Concat(pieces[..i]), FullChunks(|Concat(pieces[..i])|)) == Broken(error)
    ensures WholeClip(r, Concat(pieces)) == Failure(error)
  {
    ConcatSplit(pieces, i);
    RefusedEarly(r, Concat(pieces[..i]), Concat(pieces[i..]));
  }

  /** However the clip is cut into pieces, empty ones included, the stream comes out as the whole clip does. */
  method ResampleStream<S(!new)>(resampler: Resampler<S>, pieces: seq<seq<real>>) returns (r: Result<seq<i16>, Error>)
    requires resampler.Lawful()
    ensures r == WholeClip(resampler, Concat(pieces))
  {
    var resampling := new Resampling(resampler);
    for i := 0 to |pieces|
      invariant fresh(resampling) && resampling.resampler == resampler && resampling.Valid()
      invariant resampling.received == Concat(pieces[..i])
    {
      var pushed := resampling.Push(pieces[i]);
      ConcatNext(pieces, i);
      if pushed.Failure? {
        RefusedAtPiece(resampler, pieces, i + 1, pushed.error);
        return Failure(pushed.error);
      }
    }
    assert pieces[..|pieces|] == pieces;
    r := resampling.Finish();
  }
}
