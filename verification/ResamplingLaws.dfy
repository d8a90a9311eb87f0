/** What of a clip reaches the filter, and that what comes out of one that only delays is the clip. */
module ResamplingLaws {
  import opened Common
  import opened Rounding
  import opened Resampling

  // ---------------------------------------------------------------------------------------
  // Calls
  // ---------------------------------------------------------------------------------------

  function AfterCalls<S(!new)>(r: Resampler<S>, run: Run<S>, calls: seq<Call>): Run<S>
    decreases |calls|
  {
    if calls == [] then run else AfterCalls(r, Called(r, run, calls[0]), calls[1..])
  }

  /** The frames a call hands over. */
  function Given(call: Call): seq<real> {
    match call
    case Full(chunk) => chunk
    case Partial(frames) => frames
  }

  function AllGiven(calls: seq<Call>): (given: seq<seq<real>>)
    ensures |given| == |calls|
  {
    seq(|calls|, i requires 0 <= i < |calls| => Given(calls[i]))
  }

  lemma {:induction false} AfterMoreCalls<S(!new)>(r: Resampler<S>, run: Run<S>, calls: seq<Call>, more: seq<Call>)
    ensures AfterCalls(r, run, calls + more) == AfterCalls(r, AfterCalls(r, run, calls), more)
    decreases |calls|
  {
    if calls == [] {
      assert calls + more == more;
    } else {
      assert (calls + more)[1..] == calls[1..] + more;
      AfterMoreCalls(r, Called(r, run, calls[0]), calls[1..], more);
    }
  }

  lemma AfterOneCall<S(!new)>(r: Resampler<S>, run: Run<S>, call: Call)
    ensures AfterCalls(r, run, [call]) == Called(r, run, call)
  {
    assert [call][1..] == [];
  }

  lemma {:induction false} ChunksAreCalls<S(!new)>(r: Resampler<S>, clip: seq<real>, chunks: nat)
    returns (calls: seq<Call>)
    requires CHUNK_FRAMES * chunks <= |clip|
    ensures AfterChunks(r, clip, chunks) == AfterCalls(r, Running(r.initial, []), calls)
    ensures |calls| == chunks && forall i | 0 <= i < chunks :: calls[i].Full? && |calls[i].chunk| == CHUNK_FRAMES
    ensures Concat(AllGiven(calls)) == clip[..CHUNK_FRAMES * chunks]
  {
    calls := [];
    if chunks > 0 {
      var before := ChunksAreCalls(r, clip, chunks - 1);
      var last := Full(Chunk(clip, chunks - 1));
      calls := before + [last];
      AfterMoreCalls(r, Running(r.initial, []), before, [last]);
      AfterOneCall(r, AfterChunks(r, clip, chunks - 1), last);
      GivenNext(before, last);
      assert clip[..CHUNK_FRAMES * chunks] == clip[..CHUNK_FRAMES * (chunks - 1)] + Chunk(clip, chunks - 1);
    }
  }

  lemma GivenNext(calls: seq<Call>, last: Call)
    ensures Concat(AllGiven(calls + [last])) == Concat(AllGiven(calls)) + Given(last)
  {
    assert AllGiven(calls + [last]) == AllGiven(calls) + [Given(last)];
    ConcatAppend(AllGiven(calls), Given(last));
  }

  /** The calls a clip is read in: chunks of 1024, and 1 to 1024 at the end. */
  ghost predicate AreClipCalls(calls: seq<Call>) {
    && (forall i | 0 <= i < |calls| - 1 :: calls[i].Full? && |calls[i].chunk| == 1024)
    && (calls != [] ==> calls[|calls| - 1].Partial? && 1 <= |calls[|calls| - 1].frames| <= 1024)
  }

  /** The run over a clip before it is flushed. */
  function BeforeFlush<S(!new)>(r: Resampler<S>, clip: seq<real>): Run<S> {
    var chunks := FullChunks(|clip|);
    AfterTail(r, AfterChunks(r, clip, chunks), clip[CHUNK_FRAMES * chunks..])
  }

  lemma ClipIsCalls<S(!new)>(r: Resampler<S>, clip: seq<real>) returns (calls: seq<Call>)
    ensures BeforeFlush(r, clip) == AfterCalls(r, Running(r.initial, []), calls)
    ensures AreClipCalls(calls) && Concat(AllGiven(calls)) == clip
  {
    var chunks := FullChunks(|clip|);
    var full := ChunksAreCalls(r, clip, chunks);
    var tail := clip[CHUNK_FRAMES * chunks..];
    calls := full;
    if clip == [] {
      assert calls == [];
    } else {
      assert 1 <= |tail| <= 1024;
      calls := full + [Partial(tail)];
      AfterMoreCalls(r, Running(r.initial, []), full, [Partial(tail)]);
      AfterOneCall(r, AfterChunks(r, clip, chunks), Partial(tail));
      GivenNext(full, Partial(tail));
    }
  }

  lemma {:induction false} FlushIsCalls<S(!new)>(r: Resampler<S>, run: Run<S>, length: nat)
    returns (silences: seq<Call>)
    requires r.Lawful()
    ensures AfterFlush(r, run, length) == AfterCalls(r, run, silences)
    ensures forall i | 0 <= i < |silences| :: silences[i] == Partial([])
    decreases if run.Running? then r.delay + length - |run.produced| else 0
  {
    silences := [];
    if run.Running? && |Trimmed(run.produced, r.delay)| < length {
      if r.process(run.state, Partial([])).Refusal? {
        silences := [Partial([])];
        AfterOneCall(r, run, Partial([]));
      } else {
        var rest := FlushIsCalls(r, Called(r, run, Partial([])), length);
        silences := [Partial([])] + rest;
        assert silences[1..] == rest;
      }
    }
  }

  /** The filter is given every frame of the clip once, in order, in chunks of 1024 and a last call; then silence. */
  lemma FilterHearsTheClip<S(!new)>(r: Resampler<S>, clip: seq<real>) returns (calls: seq<Call>, silences: seq<Call>)
    requires r.Lawful()
    ensures Flushed(r, clip) == AfterCalls(r, Running(r.initial, []), calls + silences)
    ensures AreClipCalls(calls) && Concat(AllGiven(calls)) == clip
    ensures forall i | 0 <= i < |silences| :: silences[i] == Partial([])
  {
    calls := ClipIsCalls(r, clip);
    silences := FlushIsCalls(r, AfterCalls(r, Running(r.initial, []), calls), r.OutputLength(|clip|));
    AfterMoreCalls(r, Running(r.initial, []), calls, silences);
  }

  /** What the filter refuses is refused, with its own error. */
  lemma {:induction false} RefusalStands<S(!new)>(r: Resampler<S>, run: Run<S>, calls: seq<Call>, i: nat, error: Error)
    requires i < |calls| && AfterCalls(r, run, calls[..i]).Running?
    requires r.process(AfterCalls(r, run, calls[..i]).state, calls[i]) == Refusal(error)
    ensures AfterCalls(r, run, calls) == Broken(error)
  {
    var front, back := calls[..i], calls[i + 1..];
    assert calls == front + [calls[i]] + back;
    AfterMoreCalls(r, run, front + [calls[i]], back);
    AfterMoreCalls(r, run, front, [calls[i]]);
    AfterOneCall(r, AfterCalls(r, run, front), calls[i]);
    BrokenStays(r, error, back);
  }

  lemma {:induction false} BrokenStays<S(!new)>(r: Resampler<S>, error: Error, calls: seq<Call>)
    ensures AfterCalls(r, Broken(error), calls) == Broken(error)
    decreases |calls|
  {
    if calls != [] {
      BrokenStays(r, error, calls[1..]);
    }
  }

  /** A clip is refused if any of its calls is, and with the error of that one. */
  lemma RefusedCallRefusesClip<S(!new)>(r: Resampler<S>, clip: seq<real>, calls: seq<Call>, i: nat, error: Error)
    requires r.Lawful() && Flushed(r, clip) == AfterCalls(r, Running(r.initial, []), calls) && i < |calls|
    requires AfterCalls(r, Running(r.initial, []), calls[..i]).Running?
    requires r.process(AfterCalls(r, Running(r.initial, []), calls[..i]).state, calls[i]) == Refusal(error)
    ensures WholeClip(r, clip) == Failure(error)
  {
    RefusalStands(r, Running(r.initial, []), calls, i, error);
  }

  // ---------------------------------------------------------------------------------------
  // A filter that only delays
  // ---------------------------------------------------------------------------------------

  function Silence(frames: nat): (silence: seq<real>)
    ensures |silence| == frames
  {
    seq(frames, i => 0.0)
  }

  /** The frames a call pushes in: those it hands over, or one of silence. */
  function PushedIn(call: Call): (frames: seq<real>)
    ensures call == Partial([]) ==> |frames| == 1
  {
    if Given(call) == [] then Silence(1) else Given(call)
  }

  /** Hands back what was pushed in, a number of frames later, and at the rate it came in. */
  function DelayLine(delay: nat, rounded: real -> real, wide: real -> real): Resampler<seq<real>> {
    Resampler(1.0, delay, Silence(delay),
              (held: seq<real>, call: Call) => Produced((held + PushedIn(call))[|PushedIn(call)|..],
                                                             (held + PushedIn(call))[..|PushedIn(call)|]),
              rounded, wide)
  }

  /** The run once everything up to a point of the line has come out. */
  function LineRun(r: Resampler<seq<real>>, line: seq<real>, out: nat): Run<seq<real>>
    requires out <= |line|
  {
    Running(line[out..], r.Samples(line[..out]))
  }

  lemma MovedAlong(line: seq<real>, frames: seq<real>, out: nat)
    requires out <= |line|
    ensures var all, held := line + frames, line[out..];
            && (held + frames)[|frames|..] == all[out + |frames|..]
            && all[..out + |frames|] == line[..out] + (held + frames)[..|frames|]
  {
    assert line[out..] + frames == (line + frames)[out..];
  }

  lemma SamplesJoin<S(!new)>(r: Resampler<S>, x: seq<real>, y: seq<real>)
    ensures r.Samples(x + y) == r.Samples(x) + r.Samples(y)
  {
  }

  lemma LineMoves(delay: nat, rounded: real -> real, wide: real -> real, line: seq<real>, out: nat, call: Call)
    requires out <= |line|
    ensures var r, frames := DelayLine(delay, rounded, wide), PushedIn(call);
            Called(r, LineRun(r, line, out), call) == LineRun(r, line + frames, out + |frames|)
  {
    var r, frames := DelayLine(delay, rounded, wide), PushedIn(call);
    MovedAlong(line, frames, out);
    SamplesJoin(r, line[..out], (line[out..] + frames)[..|frames|]);
  }

  lemma {:induction false} LineAfterCalls(delay: nat, rounded: real -> real, wide: real -> real, line: seq<real>,
                                          out: nat, calls: seq<Call>)
    requires out <= |line| && forall i | 0 <= i < |calls| :: Given(calls[i]) != []
    ensures var r, given := DelayLine(delay, rounded, wide), Concat(AllGiven(calls));
            AfterCalls(r, LineRun(r, line, out), calls) == LineRun(r, line + given, out + |given|)
    decreases |calls|
  {
    if calls == [] {
      assert line + [] == line;
    } else {
      var given := Given(calls[0]);
      LineMoves(delay, rounded, wide, line, out, calls[0]);
      LineAfterCalls(delay, rounded, wide, line + given, out + |given|, calls[1..]);
      assert AllGiven(calls)[1..] == AllGiven(calls[1..]);
      assert line + given + Concat(AllGiven(calls[1..])) == line + Concat(AllGiven(calls));
    }
  }

  lemma LineBegins(delay: nat, rounded: real -> real, wide: real -> real)
    ensures var r := DelayLine(delay, rounded, wide);
            Running(r.initial, []) == LineRun(r, Silence(delay), 0)
  {
    var r := DelayLine(delay, rounded, wide);
    assert Silence(delay)[0..] == Silence(delay) && r.Samples(Silence(delay)[..0]) == [];
  }

  lemma ClipCallsGive(calls: seq<Call>)
    requires AreClipCalls(calls)
    ensures forall i | 0 <= i < |calls| :: Given(calls[i]) != []
  {
  }

  lemma LineAfterClipCalls(delay: nat, rounded: real -> real, wide: real -> real, calls: seq<Call>, clip: seq<real>)
    requires AreClipCalls(calls) && Concat(AllGiven(calls)) == clip
    ensures var r := DelayLine(delay, rounded, wide);
            AfterCalls(r, Running(r.initial, []), calls) == LineRun(r, Silence(delay) + clip, |clip|)
  {
    LineBegins(delay, rounded, wide);
    ClipCallsGive(calls);
    LineAfterCalls(delay, rounded, wide, Silence(delay), 0, calls);
  }

  lemma LineAfterTail(delay: nat, rounded: real -> real, wide: real -> real, clip: seq<real>)
    ensures var r := DelayLine(delay, rounded, wide);
            BeforeFlush(r, clip) == LineRun(r, Silence(delay) + clip, |clip|)
  {
    var calls := ClipIsCalls(DelayLine(delay, rounded, wide), clip);
    LineAfterClipCalls(delay, rounded, wide, calls, clip);
  }

  lemma {:induction false} LineAfterFlush(delay: nat, rounded: real -> real, wide: real -> real, line: seq<real>,
                                          out: nat, length: nat)
    returns (more: nat)
    requires DelayLine(delay, rounded, wide).Lawful() && out <= |line|
    ensures var r := DelayLine(delay, rounded, wide);
            AfterFlush(r, LineRun(r, line, out), length) == LineRun(r, line + Silence(more), out + more)
    ensures length > 0 ==> delay + length <= out + more
    decreases delay + length - out
  {
    var r := DelayLine(delay, rounded, wide);
    if out < delay + length && length > 0 {
      LineMoves(delay, rounded, wide, line, out, Partial([]));
      var rest := LineAfterFlush(delay, rounded, wide, line + Silence(1), out + 1, length);
      more := 1 + rest;
      assert line + Silence(1) + Silence(rest) == line + Silence(more);
    } else {
      more := 0;
      assert line + Silence(0) == line;
    }
  }

  lemma LineKeepsLength(delay: nat, rounded: real -> real, wide: real -> real, frames: nat)
    requires DelayLine(delay, rounded, wide).Lawful() && frames <= F64_WHOLE
    ensures DelayLine(delay, rounded, wide).OutputLength(frames) == frames
  {
    var r := DelayLine(delay, rounded, wide);
    assert KeepsWhole(wide, F64_WHOLE, frames as real);
    assert r.Scaled(frames) == frames as real;
    CeilingIsBetween(frames as real, frames);
  }

  lemma CutOfLine(r: Resampler<seq<real>>, clip: seq<real>, more: nat)
    requires clip != [] ==> r.delay <= more
    ensures Cut(LineRun(r, Silence(r.delay) + clip + Silence(more), |clip| + more), r.delay, |clip|)
         == Success(r.Samples(clip))
  {
    var line := Silence(r.delay) + clip + Silence(more);
    var produced := r.Samples(line[..|clip| + more]);
    var value := Trimmed(produced, r.delay)[..Min(|clip|, |Trimmed(produced, r.delay)|)];
    assert |value| == |clip|;
    forall i | 0 <= i < |clip| ensures value[i] == r.Samples(clip)[i] {
      assert value[i] == produced[r.delay + i] && line[r.delay + i] == clip[i];
    }
    assert value == r.Samples(clip);
  }

  /** A clip through a filter that only delays it comes out whole, each frame as its sample: nothing lost or added. */
  lemma DelayIsUndone(delay: nat, rounded: real -> real, wide: real -> real, clip: seq<real>)
    requires IsRounding(rounded, F32_WHOLE) && IsRounding(wide, F64_WHOLE) && |clip| <= F64_WHOLE
    ensures var r := DelayLine(delay, rounded, wide);
            r.Lawful() && WholeClip(r, clip) == Success(r.Samples(clip))
  {
    var r := DelayLine(delay, rounded, wide);
    LineKeepsLength(delay, rounded, wide, |clip|);
    LineAfterTail(delay, rounded, wide, clip);
    var more := LineAfterFlush(delay, rounded, wide, Silence(delay) + clip, |clip|, |clip|);
    CutOfLine(r, clip, more);
  }
}
