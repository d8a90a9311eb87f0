/**
  How many frames of each Opus packet reach the stream: the pre-skip the header names, the
  trims the container signals, and the packet itself. libopus is any deterministic machine.
 */
module OpusDecoding {
  import opened Common
  import PacketDecoding
  import opened Rounding

  /** One sample of each channel. */
  type Frame = seq<real>

  type Packet = PacketDecoding.Packet

  /** The frames a packet decodes to, if libopus accepts it. */
  datatype Step<+S> = Step(next: S, frames: Option<seq<Frame>>)

  type Codec<!S> = (S, seq<u8>) -> Step<S>

  function MaxNat(x: nat, y: nat): nat {
    if x < y then y else x
  }

  /** The frames dropped from the front of a packet that decodes to so many. */
  function Leading(owed: nat, packet: Packet, decoded: nat): nat {
    Min(MaxNat(owed, packet.trimStart), decoded)
  }

  function Trailing(owed: nat, packet: Packet, decoded: nat): (trailing: nat)
    ensures Leading(owed, packet, decoded) + trailing <= decoded
  {
    Min(packet.trimEnd, decoded - Leading(owed, packet, decoded))
  }

  /** The skip still owed after a packet. */
  function StillOwed(owed: nat, packet: Packet, decoded: nat): nat {
    var leading := Leading(owed, packet, decoded);
    if owed < leading then 0 else owed - leading
  }

  /** What a packet contributes. */
  function Kept(owed: nat, packet: Packet, frames: seq<Frame>): seq<Frame> {
    frames[Leading(owed, packet, |frames|)..|frames| - Trailing(owed, packet, |frames|)]
  }

  /** The gain of a header as a factor, and the float arithmetic it is applied in. */
  datatype Amplifier = Amplifier(factor: real, rounded: real -> real) {
    function Of(sample: real): real {
      rounded(Product(sample, factor))
    }
  }

  function Amplified(frame: Frame, gain: Amplifier): (amplified: Frame)
    ensures |amplified| == |frame|
  {
    seq(|frame|, i requires 0 <= i < |frame| => gain.Of(frame[i]))
  }

  function AllAmplified(frames: seq<Frame>, gain: Amplifier): (amplified: seq<Frame>)
    ensures |amplified| == |frames|
  {
    seq(|frames|, i requires 0 <= i < |frames| => Amplified(frames[i], gain))
  }

  class OpusDecoder<S> {
    const codec: Codec<S>
    const outputGain: Amplifier
    var state: S
    var buffer: seq<Frame>
    var framesToSkip: nat

    constructor (codec: Codec<S>, initial: S, outputGain: Amplifier, preSkip: nat)
      ensures this.codec == codec && this.outputGain == outputGain && state == initial && framesToSkip == preSkip
    {
      this.codec, this.outputGain, state, buffer, framesToSkip := codec, outputGain, initial, [], preSkip;
    }

    /** Decodes a packet into the buffer; a rejected one leaves it empty and owes as much skip as before. */
    method DecodeRef(packet: Packet) returns (accepted: bool)
      modifies this
      ensures var step := codec(old(state), packet.data);
              && state == step.next
              && accepted == step.frames.Some?
              && match step.frames
                 case None => buffer == [] && framesToSkip == old(framesToSkip)
                 case Some(frames) =>
                   && buffer == Kept(old(framesToSkip), packet, AllAmplified(frames, outputGain))
                   && framesToSkip == StillOwed(old(framesToSkip), packet, |frames|)
                   && framesToSkip == (if old(framesToSkip) <= |frames| then 0 else old(framesToSkip) - |frames|)
    {
      buffer := [];
      var step := codec(state, packet.data);
      state := step.next;
      if step.frames.None? {
        return false;
      }
      buffer := AllAmplified(step.frames.value, outputGain);
      var decodedFrames := |buffer|;

      var leading := Min(MaxNat(framesToSkip, packet.trimStart), decodedFrames);
      framesToSkip := if framesToSkip < leading then 0 else framesToSkip - leading;

      var trailing := Min(packet.trimEnd, decodedFrames - leading);
      buffer := buffer[leading..|buffer| - trailing];
      return true;
    }
  }

  /** A frame of a packet that is past the skip and the leading trim, and before the trailing one. */
  predicate Untouched(owed: nat, packet: Packet, decoded: nat, i: int) {
    owed <= i && packet.trimStart <= i && i + packet.trimEnd < decoded
  }

  /** What a packet contributes is one stretch of it: the frames neither the skip nor either trim reaches. */
  lemma KeptAreUntouched(owed: nat, packet: Packet, frames: seq<Frame>) returns (start: nat)
    ensures var kept := Kept(owed, packet, frames);
            && start + |kept| <= |frames| && kept == frames[start..start + |kept|]
            && forall i | 0 <= i < |frames| :: Untouched(owed, packet, |frames|, i) <==> start <= i < start + |kept|
  {
    start := Leading(owed, packet, |frames|);
  }

  // ---------------------------------------------------------------------------------------
  // A run of packets
  // ---------------------------------------------------------------------------------------

  /** A packet that decoded, and what to. */
  datatype Decoded = Decoded(packet: Packet, frames: seq<Frame>)

  /** The output of a run of decoded packets. */
  function Output(owed: nat, run: seq<Decoded>): seq<Frame>
    decreases |run|
  {
    if run == [] then []
    else Kept(owed, run[0].packet, run[0].frames) + Output(StillOwed(owed, run[0].packet, |run[0].frames|), run[1..])
  }

  /** Everything the packets decoded to. */
  function AllFrames(run: seq<Decoded>): seq<Frame> {
    if run == [] then [] else run[0].frames + AllFrames(run[1..])
  }

  /** The pre-skip dropped from the front of everything decoded, and nothing else. */
  function Skipped(owed: nat, run: seq<Decoded>): seq<Frame> {
    AllFrames(run)[Min(owed, |AllFrames(run)|)..]
  }

  /** The skip swallows the packet whole, or the container trims none of it but frames of the skip. */
  predicate TrimsOnlySkip(owed: nat, packet: Packet, decoded: nat) {
    decoded <= owed || (packet.trimStart <= owed && packet.trimEnd == 0)
  }

  ghost predicate RunTrimsOnlySkip(owed: nat, run: seq<Decoded>)
    decreases |run|
  {
    run != [] ==>
      && TrimsOnlySkip(owed, run[0].packet, |run[0].frames|)
      && RunTrimsOnlySkip(StillOwed(owed, run[0].packet, |run[0].frames|), run[1..])
  }

  /** No run outputs more frames than it decodes beyond the skip, however it is trimmed. */
  lemma {:induction false} OutputIsBounded(owed: nat, run: seq<Decoded>)
    ensures |Output(owed, run)| <= |Skipped(owed, run)|
    decreases |run|
  {
    if run != [] {
      OutputIsBounded(StillOwed(owed, run[0].packet, |run[0].frames|), run[1..]);
    }
  }

  lemma SkipsAcross(owed: nat, x: seq<Frame>, y: seq<Frame>)
    ensures (x + y)[Min(owed, |x + y|)..] == x[Min(owed, |x|)..] + y[Min(if owed < |x| then 0 else owed - |x|, |y|)..]
  {
  }

  /**
    The output is everything decoded less the pre-skip, frame for frame, exactly when every
    packet's trims stay within the skip still owed when it arrives.
   */
  lemma {:induction false} SkipIsConservedIff(owed: nat, run: seq<Decoded>)
    ensures Output(owed, run) == Skipped(owed, run) <==> RunTrimsOnlySkip(owed, run)
    decreases |run|
  {
    if run != [] {
      var packet, frames, rest := run[0].packet, run[0].frames, run[1..];
      var next := StillOwed(owed, packet, |frames|);
      SkipsAcross(owed, frames, AllFrames(rest));
      if TrimsOnlySkip(owed, packet, |frames|) {
        assert Kept(owed, packet, frames) == frames[Min(owed, |frames|)..];
        SkipIsConservedIff(next, rest);
        var kept := Kept(owed, packet, frames);
        assert Output(next, rest) == (kept + Output(next, rest))[|kept|..];
        assert Skipped(next, rest) == (kept + Skipped(next, rest))[|kept|..];
      } else {
        OutputIsBounded(next, rest);
      }
    }
  }

  lemma KeptLength(owed: nat, packet: Packet, frames: seq<Frame>)
    ensures |Kept(owed, packet, frames)| <= |frames| - Min(owed, |frames|)
    ensures |Kept(owed, packet, frames)| == |frames| - Min(owed, |frames|) <==> TrimsOnlySkip(owed, packet, |frames|)
  {
  }

  lemma SkippedLength(owed: nat, packet: Packet, frames: seq<Frame>, rest: seq<Decoded>)
    ensures |Skipped(owed, [Decoded(packet, frames)] + rest)|
         == |frames| - Min(owed, |frames|) + |Skipped(StillOwed(owed, packet, |frames|), rest)|
  {
    var run := [Decoded(packet, frames)] + rest;
    assert run[1..] == rest;
    SkipsAcross(owed, frames, AllFrames(rest));
  }

  /** The length of the output alone tells whether anything more was trimmed. */
  lemma {:induction false} LengthTellsTrims(owed: nat, run: seq<Decoded>)
    ensures |Output(owed, run)| == |Skipped(owed, run)| <==> RunTrimsOnlySkip(owed, run)
    decreases |run|
  {
    if run != [] {
      var packet, frames, rest := run[0].packet, run[0].frames, run[1..];
      var next := StillOwed(owed, packet, |frames|);
      assert run == [Decoded(packet, frames)] + rest;
      SkippedLength(owed, packet, frames, rest);
      KeptLength(owed, packet, frames);
      LengthTellsTrims(next, rest);
      OutputIsBounded(next, rest);
    }
  }

  /** A container that trims the pre-skip itself and one that leaves it to the decoder yield the same stream. */
  lemma WhoeverTrimsTheSkip(owed: nat, run: seq<Decoded>, other: seq<Decoded>)
    requires |run| == |other| && forall i | 0 <= i < |run| :: run[i].frames == other[i].frames
    requires RunTrimsOnlySkip(owed, run) && RunTrimsOnlySkip(owed, other)
    ensures Output(owed, run) == Output(owed, other)
  {
    SkipIsConservedIff(owed, run);
    SkipIsConservedIff(owed, other);
    SameFrames(run, other);
  }

  lemma {:induction false} SameFrames(run: seq<Decoded>, other: seq<Decoded>)
    requires |run| == |other| && forall i | 0 <= i < |run| :: run[i].frames == other[i].frames
    ensures AllFrames(run) == AllFrames(other)
  {
    if run != [] {
      SameFrames(run[1..], other[1..]);
    }
  }

  /** What a run of packets decodes to, up to the first that is rejected. */
  function Decodes<S>(codec: Codec<S>, state: S, outputGain: Amplifier, packets: seq<Packet>): seq<Decoded> {
    if packets == [] then []
    else
      var step := codec(state, packets[0].data);
      match step.frames
      case None => []
      case Some(frames) =>
        [Decoded(packets[0], AllAmplified(frames, outputGain))] + Decodes(codec, step.next, outputGain, packets[1..])
  }

  // ---------------------------------------------------------------------------------------
  // Gain
  // ---------------------------------------------------------------------------------------

  /** Every sample is multiplied by the gain: whole ones by a whole one, exactly, while 24 bits hold it. */
  lemma GainMultiplies(frame: Frame, gain: Amplifier, i: nat, n: int, m: int)
    requires IsRounding(gain.rounded, F32_WHOLE) && i < |frame|
    requires frame[i] == n as real && gain.factor == m as real && -0x100_0000 <= n * m <= 0x100_0000
    ensures Amplified(frame, gain)[i] == (n * m) as real
  {
    assert Product(frame[i], gain.factor) == (n * m) as real;
    WholeBoundsAreKept(gain.rounded, F32_WHOLE, (n * m) as real, if n * m < 0 then -(n * m) else n * m);
  }

  /** And the product rounded to a float. */
  lemma AmplifiedAreFloats(frame: Frame, gain: Amplifier, i: nat)
    requires IsRounding(gain.rounded, F32_WHOLE) && i < |frame|
    ensures gain.rounded(Amplified(frame, gain)[i]) == Amplified(frame, gain)[i]
  {
    ProductIsFloat(gain, frame[i]);
  }

  lemma ProductIsFloat(gain: Amplifier, sample: real)
    requires IsRounding(gain.rounded, F32_WHOLE)
    ensures gain.rounded(gain.Of(sample)) == gain.Of(sample)
  {
    assert KeepsRounded(gain.rounded, Product(sample, gain.factor));
  }

  /** A gain of one, with nothing rounded. */
  function Unity(): Amplifier {
    Amplifier(1.0, x => x)
  }

  lemma KeptIsAmplified(owed: nat, packet: Packet, frames: seq<Frame>, gain: Amplifier)
    ensures Kept(owed, packet, AllAmplified(frames, gain)) == AllAmplified(Kept(owed, packet, frames), gain)
    ensures AllAmplified(frames, Unity()) == frames
  {
    forall i | 0 <= i < |frames| ensures Amplified(frames[i], Unity()) == frames[i] {
    }
  }

  lemma AmplifiedJoin(x: seq<Frame>, y: seq<Frame>, gain: Amplifier)
    ensures AllAmplified(x + y, gain) == AllAmplified(x, gain) + AllAmplified(y, gain)
  {
  }

  /** The gain is applied to exactly what would be output without it. */
  lemma {:induction false} GainIsApplied<S>(codec: Codec<S>, state: S, gain: Amplifier, owed: nat, packets: seq<Packet>)
    ensures Output(owed, Decodes(codec, state, gain, packets))
         == AllAmplified(Output(owed, Decodes(codec, state, Unity(), packets)), gain)
    decreases |packets|
  {
    if packets != [] && codec(state, packets[0].data).frames.Some? {
      var step := codec(state, packets[0].data);
      var packet, frames := packets[0], step.frames.value;
      var next := StillOwed(owed, packet, |frames|);
      GainIsApplied(codec, step.next, gain, next, packets[1..]);
      KeptIsAmplified(owed, packet, frames, gain);
      FirstIsOutput(codec, state, gain, owed, packets);
      FirstIsOutput(codec, state, Unity(), owed, packets);
      AmplifiedJoin(Kept(owed, packet, frames), Output(next, Decodes(codec, step.next, Unity(), packets[1..])), gain);
    }
  }

  lemma FirstIsOutput<S>(codec: Codec<S>, state: S, gain: Amplifier, owed: nat, packets: seq<Packet>)
    requires packets != [] && codec(state, packets[0].data).frames.Some?
    ensures var step := codec(state, packets[0].data);
            var frames := AllAmplified(step.frames.value, gain);
            Output(owed, Decodes(codec, state, gain, packets))
              == Kept(owed, packets[0], frames)
                 + Output(StillOwed(owed, packets[0], |frames|), Decodes(codec, step.next, gain, packets[1..]))
  {
    var step := codec(state, packets[0].data);
    var run, rest := Decodes(codec, state, gain, packets), Decodes(codec, step.next, gain, packets[1..]);
    assert run == [Decoded(packets[0], AllAmplified(step.frames.value, gain))] + rest && run[1..] == rest;
  }

  /** The buffers of one decoder over a run of packets, put end to end. */
  method DecodeRun<S>(codec: Codec<S>, initial: S, outputGain: Amplifier, preSkip: nat, packets: seq<Packet>)
    returns (output: seq<Frame>)
    ensures output == Output(preSkip, Decodes(codec, initial, outputGain, packets))
  {
    var decoder := new OpusDecoder(codec, initial, outputGain, preSkip);
    output := [];
    var i := 0;
    while i < |packets|
      invariant 0 <= i <= |packets| && fresh(decoder) && decoder.codec == codec && decoder.outputGain == outputGain
      invariant Output(preSkip, Decodes(codec, initial, outputGain, packets))
             == output + Output(decoder.framesToSkip, Decodes(codec, decoder.state, outputGain, packets[i..]))
      decreases |packets| - i
    {
      var accepted := decoder.DecodeRef(packets[i]);
      assert packets[i..][1..] == packets[i + 1..];
      if !accepted {
        return output;
      }
      output := output + decoder.buffer;
      i := i + 1;
    }
  }
}
