/** The values a fingerprint is made of. */
module Signature {
  import opened Common

  datatype FrequencyBand = Band250To520 | Band520To1450 | Band1450To3500 | Band3500To5500 {

    /** The discriminant, which both orderings of the bands compare. */
    function Id(): (id: nat)
      ensures id < 4
    {
      match this
      case Band250To520 => 0
      case Band520To1450 => 1
      case Band1450To3500 => 2
      case Band3500To5500 => 3
    }
  }

  /** The pass is 32 bits wide where it is written, not where it is counted. */
  datatype FrequencyPeak = FrequencyPeak(pass: nat, magnitude: u16, bin: u16)

  /** The peaks of each band that has any, in the order they were found. */
  type PeakMap = map<FrequencyBand, seq<FrequencyPeak>>

  datatype DecodedSignature = DecodedSignature(
    sampleRateHz: u32,
    numberSamples: u32,
    soundPeaks: PeakMap
  )

  /** The peaks listed for a band; no entry and an empty list are told apart only by the map itself. */
  function PeaksIn(peaks: PeakMap, band: FrequencyBand): seq<FrequencyPeak> {
    if band in peaks then peaks[band] else []
  }

  /** The order the encoder asserts. */
  predicate PassesAscend(peaks: seq<FrequencyPeak>) {
    forall i, j | 0 <= i < j < |peaks| :: peaks[i].pass <= peaks[j].pass
  }

  predicate Precedes(x: FrequencyPeak, y: FrequencyPeak) {
    x.pass < y.pass || (x.pass == y.pass && x.bin < y.bin)
  }

  /** Strictly ascending by pass, then by corrected bin. */
  predicate StrictlyOrdered(peaks: seq<FrequencyPeak>) {
    forall i, j | 0 <= i < j < |peaks| :: Precedes(peaks[i], peaks[j])
  }

  /** Every peak moved the same number of passes later. */
  function Later(peaks: seq<FrequencyPeak>, passes: nat): (r: seq<FrequencyPeak>)
    ensures |r| == |peaks|
    ensures forall i | 0 <= i < |r| :: r[i] == peaks[i].(pass := peaks[i].pass + passes)
  {
    seq(|peaks|, i requires 0 <= i < |peaks| => peaks[i].(pass := peaks[i].pass + passes))
  }
}
