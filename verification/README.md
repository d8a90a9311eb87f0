# Audio fingerprinting, verified

A Dafny 4.11 model of the pipeline in `src/fingerprinting/` that turns the packets of an audio
stream into the bytes of a signature: decoding and mixing down, resampling to 16 kHz, cutting the
middle, finding spectral peaks, encoding them. Each stage of the crate works step by step on state
(rings addressed with `& 255`, staged frames, a reader that can reset, a cursor that seeks back);
each is held here to a specification that has none of it, and the properties are proved of that.

`dafny verify dfyconfig.toml` checks everything.

| file | what it holds |
|---|---|
| `Spectrogram.dfy` | the peak condition over an unbounded history of frames, and what it amounts to |
| `Rounding.dfy`, `PeakVariation.dfy` | float rounding, and what it does to the variation of a peak |
| `Interpolation.dfy`, `Overshoot.dfy` | magnitude, interpolated bin and band of a peak; the inputs that leave half a bin |
| `Fingerprint.dfy`, `FingerprintContents.dfy` | the fingerprint as a function of the samples; what it lists, windows and powers |
| `FingerprintLaws.dfy` | order, locality, delay |
| `Rings.dfy`, `Generator.dfy` | `SignatureGenerator`, its three rings and its loops |
| `LittleEndian.dfy`, `Signature.dfy`, `SignatureFormat.dfy` | the signature and its encoder, writing through a cursor |
| `SignatureDecoder.dfy`, `FingerprintEncoding.dfy` | a reader of the format, and the round trips |
| `SignatureBytes.dfy` | the bytes themselves, number by number |
| `Resampling.dfy`, `ResamplingLaws.dfy` | the streaming resampler, the whole-clip resampling it unrolls, and what reaches the filter |
| `PacketDecoding.dfy`, `PacketReading.dfy` | what a stream's events come to, and the loops that read them |
| `PacketLaws.dfy` | what a stream does without: other tracks, and what follows its end |
| `OpusHeader.dfy`, `OpusDecoding.dfy` | the `OpusHead` parser, and pre-skip and trims |
| `OpusStream.dfy` | both of those joined: an Opus track through the packet decoder |
| `Pipeline.dfy` | the middle segment, and everything from events to signature |

Code outside the crate is a parameter with the few laws it is used for. The forward transform maps
2048 samples to 1025 complex values and silence to zeros; the logarithm is monotone; CRC-32 is any
function of bytes. The sinc filter is any deterministic machine whose full calls take 1024 frames and
whose empty calls produce something; codecs and libopus are deterministic machines; a reader is the
finite list of what it has yet to hand over. Floats are reals rounded after every operation, as the
code rounds them; the rounding is any function that keeps order and sign and leaves alone whole
numbers (to 24 bits for `f32`, 53 for `f64`), twice a float and what is rounded already. For the
magnitudes it is also to the nearest float of 24 bits, from 4096 on: 2048 steps to the unit up to 8192
and half as many with every doubling. Integer widths are written out where they can bite: 32-bit sums
in the encoder wrap, as they do in a release build, float-to-integer casts truncate and saturate, and
the corrected bin is cut to 16 bits.

Three things the proofs brought out.

- A peak is meant to be stored within half a bin of where it was recognised. In floats it is not
  always: it can be a whole bin to the right. That happens exactly when the magnitude after is level
  with the peak's, twice the peak's less the one before is rounded down, and the one before is two to 33
  floats lower (`CorrectedBinIsWithinHalfABinIff`; `LeanCanBeAWholeBin` has such magnitudes, and
  `StoredPeaksCanBeCloser` powers that give them). One float lower and `peak_variation_1` is 0 and the
  quotient saturates; the sum then wraps to one step below the bin, where overflow checks would panic.
  The assertion on the variation, the strict order of every list and the round trips hold throughout.
- The comments at `src/fingerprinting/algorithm.rs:225` and `:235` speak of local minima; what is
  tested, and proved, is a maximum.
- The size fields of a signature are right exactly when the length past the header fits 32 bits, even
  where the whole length does not, because the subtraction of the header then wraps back.

## Model

| member | source | states |
|---|---|---|
| Spectrogram.SpreadIsMaximum | src/fingerprinting/algorithm.rs:187-205 | a finished spread bin is the attained maximum over three bins of the frames 0, 1, 3 and 6 later |
| Spectrogram.PeakIffDominates | src/fingerprinting/algorithm.rs:215-252 | the offsets and both spreadings amount exactly to a threshold and an explicit neighbourhood: ten bins either side in frames -3, -2, 0 and 3, one bin either side in 52 other frames from -45 to 45, strictly except for the bin's own place in the first four |
| Spectrogram.PeakIsStrictLocalMaximum | src/fingerprinting/algorithm.rs:222-234 | a peak is strictly louder than the ten bins either side of it in its frame |
| Spectrogram.LoneBinIsPeakIff | src/fingerprinting/algorithm.rs:219-255 | a bin with nothing else in the spectrogram is a peak exactly from a power of 1/64 on |
| Spectrogram.PeaksKeepApart | src/fingerprinting/algorithm.rs:222-252 | two peaks are never at an excluded distance: 1 to 10 bins apart in one frame or three frames apart, within one bin at 1 or 2 frames apart or at any 4 to 45 that leave 0, 3 or 4 on division by 7 |
| Spectrogram.OnlyTheseAreExcluded | src/fingerprinting/algorithm.rs:222-252 | at every other distance some spectrogram has both peaks, so the exclusions are exact |
| Spectrogram.PeakIsLocal | src/fingerprinting/algorithm.rs:215-252 | whether a bin is a peak depends only on 45 frames and ten bins either side, and not on how quiet the bins under the threshold are |
| Interpolation.VariationIsNotNegative | src/fingerprinting/algorithm.rs:264-273 | with neither neighbour above the peak the asserted variation is not negative, whatever the product and the two differences round to |
| Interpolation.LeanIsTowardTheLouder | src/fingerprinting/algorithm.rs:264-271 | and the interpolation term is never toward the quieter neighbour, 0/0 and division by zero included |
| Interpolation.QuotientIsTruncated | src/fingerprinting/algorithm.rs:266-271 | the cast of the quotient drops its fraction toward zero, alike for either sign, and saturates at 2^31 - 1 |
| PeakVariation.TwiceReaches | src/fingerprinting/algorithm.rs:264-265 | while the magnitude after is below the peak's at all, rounding twice the peak's less the one before loses none of the difference of the two, in every binade |
| PeakVariation.RoundedDownFallsShort | src/fingerprinting/algorithm.rs:264-265 | where it is rounded down and the magnitude after is the peak's own, the variation is one float step less than the difference while that is up to 33 steps, and within a thirty-third of it past that |
| Interpolation.LeanIsHalfABinIff | src/fingerprinting/algorithm.rs:264-271 | the term is never below -32, and at most 32, half a bin, exactly unless the magnitude after equals the peak's, twice the peak's less the one before is rounded down, and that one is at most 33 floats lower |
| Interpolation.LeanAtPeak | src/fingerprinting/algorithm.rs:264-271 | then it is 33 to 64, or with a single float between them saturated |
| Interpolation.LeanSaturatesIff | src/fingerprinting/algorithm.rs:264-271 | it saturates exactly then, which is when the variation is 0 and the magnitude after is above the one before |
| Interpolation.LeanIsHalfABinIfReached | src/fingerprinting/algorithm.rs:264-271 | it is half a bin at most, neighbours of whatever size, as long as twice the peak's less the one before rounds to twice the one after less that |
| Interpolation.ReachedIffWithin32 | src/fingerprinting/algorithm.rs:264-271 | and where the differences are exact, the slant is no more than 32 times the variation only then |
| Overshoot.LeanCanBeAWholeBin | src/fingerprinting/algorithm.rs:264-271 | the term can be 64: magnitudes 3/1024, 1/1024 and 1/1024 below 16384 |
| Overshoot.LeanCanSaturate | src/fingerprinting/algorithm.rs:264-271 | and saturate: magnitudes 1/1024 below 16384, and 16384 twice |
| Interpolation.SaturatedLeanWraps | src/fingerprinting/algorithm.rs:270-271 | a saturated term wraps to one step below the bin |
| Interpolation.CorrectedBinIsWithinHalfABinIff | src/fingerprinting/algorithm.rs:257-271 | every peak is stored from 32 below to 64 above 64 times its bin, and no more than 32 above exactly unless the magnitude after equals its own, the difference to the one before is rounded down, and that is two to 33 floats lower |
| Interpolation.BandsAreIntervals | src/fingerprinting/algorithm.rs:279-293 | the four bands are exactly four adjoining intervals of corrected bins |
| Rings.SpreadGrows | src/fingerprinting/algorithm.rs:184-205 | a new frame starts its own spread spectrum, raises those 1, 3 and 6 frames back by its own spread bins, and changes no other |
| Rings.RawOffsetsReadBack | src/fingerprinting/algorithm.rs:239-250 | each written offset reads the slot of a frame between 91 and 7 blocks back that no later frame can raise |
| Rings.BlockKeepsOthers | src/fingerprinting/algorithm.rs:142-147 | a block overwrites none of the slots of the 1920 samples before it |
| Fingerprint.FrameIsLocal | src/fingerprinting/algorithm.rs:139-174 | a frame is a function of the 2048 samples that end with its block, silence standing in before the start |
| FingerprintContents.FlatWindowIsTheStretch | src/fingerprinting/algorithm.rs:142-156 | under a table of ones a window is the 2048 samples up to the end of its block, oldest first |
| FingerprintContents.WindowOfOnesIsTheTable | src/fingerprinting/algorithm.rs:151-156 | and the window of samples that are all 1 is the table, in its own order |
| FingerprintContents.WindowsAndPowersAreFloats | src/fingerprinting/algorithm.rs:151-174 | every product with the table, and every power above the floor, is rounded to a float |
| FingerprintContents.PowerKeepsOrder | src/fingerprinting/algorithm.rs:169-174 | power does not fall as either part of the transform grows in size |
| FingerprintContents.PowerIsOfSizes | src/fingerprinting/algorithm.rs:169-174 | nor does it change with either sign, or with the parts swapped |
| FingerprintContents.WholePower | src/fingerprinting/algorithm.rs:158-174 | a bin whose transform has whole parts has the sum of their squares over 2^17 for its power, or the floor |
| FingerprintContents.EveryPeakIsListed | src/fingerprinting/algorithm.rs:215-308 | every bin from 10 to 1014 that dominates its neighbourhood, in any pass that has run, is listed in the band of its corrected bin, with that pass, its magnitude truncated and that bin |
| FingerprintContents.ListedIff | src/fingerprinting/algorithm.rs:124-308 | and a list holds nothing else; a band has an entry exactly when it has a peak |
| FingerprintContents.SamplesAreCounted | src/fingerprinting/algorithm.rs:117-121 | a signature declares 16000 Hz and the number of samples it was made of |
| FingerprintContents.QuietestMagnitude | src/fingerprinting/algorithm.rs:257-258 | however far below 1/64 the logarithm, the magnitude stored is 6167 |
| Fingerprint.BandPeaksAreInOrder | src/fingerprinting/algorithm.rs:211-313 | the peaks of a band ascend by pass and within a pass come from bins at least eleven apart, each recognised in a pass that ran and belonging to its band |
| Fingerprint.PeakVariationIsNotNegative | src/fingerprinting/algorithm.rs:255-273 | the assertion holds at every peak of every recording, however its powers, magnitudes and differences round |
| Fingerprint.BandPeaksAreWellApart | src/fingerprinting/algorithm.rs:211-308 | the stored bins of a pass ascend by at least 608 sixty-fourths in every band of every recording, and by 640 if no magnitude overshoots |
| Overshoot.StoredPeaksCanBeCloser | src/fingerprinting/algorithm.rs:255-271 | 608 is attained, at any bin: a frame of powers near 1024.09, with a logarithm that agrees with the natural one there |
| Fingerprint.StoredPeaksKeepApart | src/fingerprinting/algorithm.rs:222-308 | any two peaks of a signature, of whichever bands, come from bins at no excluded distance; they are stored 608 apart in one pass, 608 apart or from one bin three passes apart, and 32 apart at the distances each looks across; 640 and 64 unless the magnitudes of the lower overshoot |
| Fingerprint.LouderIsStoredHigher | src/fingerprinting/algorithm.rs:257-258 | a louder bin never gets a lower stored magnitude, and none is below 6167 |
| FingerprintLaws.PassIsLocal | src/fingerprinting/algorithm.rs:124-257 | the peaks of pass p are determined by samples 128(p-44)-2048 up to 128(p+46) |
| FingerprintLaws.PrefixFingerprint | src/fingerprinting/algorithm.rs:101-137 | the fingerprint of a prefix is that of the whole restricted to the passes that still run |
| FingerprintLaws.PaddingDelays | src/fingerprinting/algorithm.rs:101-137 | 128k samples of leading silence move every peak k passes later and add or remove none |
| Generator.BlockLands | src/fingerprinting/algorithm.rs:142-147 | a ring of the last 2048 samples with a block written over its place is a ring of the 2048 that end with the block |
| Generator.PassContinues | src/fingerprinting/algorithm.rs:219-308 | one more bin adds its peak to the list of its band and nothing else |
| Generator.SignatureGenerator.constructor | src/fingerprinting/algorithm.rs:102-123 | empty rings stand for the silence before a recording |
| Generator.SignatureGenerator.TakeBlock | src/fingerprinting/algorithm.rs:142-147 | after a block the ring holds the last 2048 samples |
| Generator.SignatureGenerator.Reorder | src/fingerprinting/algorithm.rs:151-156 | the reordered buffer is those samples, oldest first, zero before the start, times the window table |
| Generator.SignatureGenerator.DoFft | src/fingerprinting/algorithm.rs:139-178 | the power ring then holds the last 256 frames, slot t & 255 belonging to frame t |
| Generator.SignatureGenerator.SpreadAcrossBins | src/fingerprinting/algorithm.rs:184-193 | the in-place pass over the bins yields the maximum of each bin and the next two, leaving all other slots alone |
| Generator.SignatureGenerator.RaiseFormers | src/fingerprinting/algorithm.rs:195-205 | the slots 1, 3 and 6 back are raised in every bin and no other slot changes |
| Generator.SignatureGenerator.DoPeakSpreading | src/fingerprinting/algorithm.rs:180-209 | slot t & 255 holds, for every t from n-256 to n-1, exactly the part of frame t's spread spectrum that n frames give |
| Generator.SignatureGenerator.LoudestAcrossFrequency | src/fingerprinting/algorithm.rs:227-234 | comparing with the running maximum is comparing with every one of the eight spread bins |
| Generator.SignatureGenerator.LoudestAcrossTime | src/fingerprinting/algorithm.rs:237-252 | and with the fourteen other frames, through slots that are final |
| Generator.SignatureGenerator.StorePeak | src/fingerprinting/algorithm.rs:255-308 | the asserted variation is not negative, and the peak is pushed to its band, whose entry is made if need be, or skipped outside all bands |
| Generator.SignatureGenerator.DoPeakRecognition | src/fingerprinting/algorithm.rs:211-313 | the map of peaks goes from that of the passes before to that of one pass more |
| Generator.SignatureGenerator.Process | src/fingerprinting/algorithm.rs:124-134 | one block keeps the whole invariant of the three rings, the count and the map |
| Generator.MakeSignatureFromBuffer | src/fingerprinting/algorithm.rs:101-137 | the generator computes the fingerprint of the buffer, defined over unbounded history |
| SignatureFormat.AscendingIsUnique | src/fingerprinting/signature_format.rs:26-36 | a strictly ascending sequence of bands is determined by which bands are in it |
| SignatureFormat.SortBands | src/fingerprinting/signature_format.rs:85-86 | sorting yields the entries strictly ascending by id |
| SignatureFormat.EncodePeaks | src/fingerprinting/signature_format.rs:89-110 | the payload of a band, or the failed assertion exactly when the passes descend somewhere |
| SignatureFormat.WordReplaced | src/fingerprinting/signature_format.rs:124-133 | seeking back and writing four bytes replaces one word and nothing else |
| SignatureFormat.Patch | src/fingerprinting/signature_format.rs:122-133 | both sizes and then the checksum of what follows end up in their fields |
| SignatureFormat.EncodeToBinary | src/fingerprinting/signature_format.rs:45-136 | the same bytes or the same failure for every order in which the map hands back its entries |
| SignatureBytes.EncodesIff | src/fingerprinting/signature_format.rs:64-91 | a signature is encoded exactly at the six rates and with ascending passes; a bad rate is what is reported first |
| SignatureBytes.EncodedWords | src/fingerprinting/signature_format.rs:48-133 | each of the fourteen words at its place: both magic numbers, checksum, sizes, rate number, sample count, fixed values, zeros |
| SignatureBytes.SamplesArePadded | src/fingerprinting/signature_format.rs:77-79 | the sample count is written with exactly 240 ms more |
| SignatureBytes.NearRecord | src/fingerprinting/signature_format.rs:96-106 | a peak less than 255 passes on is five bytes: the gap, magnitude and bin, lower bytes first |
| SignatureBytes.FarRecord | src/fingerprinting/signature_format.rs:96-106 | further on it is ten: 255, the pass, a gap of 0, magnitude and bin |
| SignatureBytes.BandIsLaidOut | src/fingerprinting/signature_format.rs:112-119 | a band is 0x60030040 and its number, the length of its payload, the payload, and zeros up to a multiple of four |
| SignatureBytes.TwoPeaksEncoded | src/fingerprinting/signature_format.rs:88-119 | the bytes of a band of two peaks |
| SignatureDecoder.DeltaIsRead | src/fingerprinting/signature_format.rs:96-107 | an ordinary record never starts with the escape and reads as its peak, whatever follows |
| SignatureDecoder.EscapedIsRead | src/fingerprinting/signature_format.rs:96-107 | an escaped record reads as its peak, whatever follows |
| SignatureDecoder.PeaksRoundTrip | src/fingerprinting/signature_format.rs:89-110 | every list of peaks in ascending pass comes back whole from its delta coding |
| SignatureDecoder.PayloadLength | src/fingerprinting/signature_format.rs:93-110 | five bytes a peak and five more for each gap of 255 passes or more |
| SignatureDecoder.BandsRoundTrip | src/fingerprinting/signature_format.rs:88-120 | the band lists come back as the bands and lists they were |
| SignatureDecoder.BandsHaveLength | src/fingerprinting/signature_format.rs:112-120 | the bands are a multiple of four bytes, eight and a padded payload for each |
| SignatureDecoder.Layout | src/fingerprinting/signature_format.rs:48-135 | the whole is 56 bytes and the bands; constants, both sizes and the checksum of the final bytes from 8 on are in place exactly when the length past the header fits 32 bits |
| SignatureDecoder.RoundTripsIff | src/fingerprinting/signature_format.rs:45-136 | what the encoder accepts decodes to itself exactly when the length past the header and the padded sample count fit their fields |
| SignatureDecoder.WrappedCountIsLost | src/fingerprinting/signature_format.rs:77-79 | an empty signature of 2^32 - 1 samples at 16 kHz is encoded and does not decode to itself |
| FingerprintEncoding.ListedPeaks | src/fingerprinting/algorithm.rs:124-308 | the listed peaks of every recording are strictly ascending by pass and bin, with no pass past floor(length/128) - 46 |
| FingerprintEncoding.FingerprintsEncode | src/fingerprinting/signature_format.rs:88-110 | for every recording the encoder's assertion and its panic stay silent |
| FingerprintEncoding.FingerprintsRoundTripIff | src/fingerprinting/signature_format.rs:45-136 | and its signature decodes to itself exactly when the fields fit |
| FingerprintEncoding.PeaksOfAPassAreFew | src/fingerprinting/algorithm.rs:219-308 | the peaks of a pass in all bands together are at most one to eleven bins |
| FingerprintEncoding.FingerprintsAreSparse | src/fingerprinting/algorithm.rs:101-313 | so a fingerprint has at most 92 peaks to a pass |
| FingerprintEncoding.EscapesAreFew | src/fingerprinting/signature_format.rs:93-106 | a list has no more escaped gaps than 255 passes to each allow |
| FingerprintEncoding.FingerprintsRoundTrip | src/fingerprinting/signature_format.rs:45-136 | every recording of up to twenty hours has a signature that decodes to itself |
| Resampling.Resampling.TrimStartupDelay | src/fingerprinting/resample.rs:130-135 | with a call's frames behind the output, trimming makes it again all that was produced, those included, less the delay, and what is still to trim what of the delay is left |
| Resampling.Resampling.ResampleChunk | src/fingerprinting/resample.rs:99-126 | one call's production is appended, the output staying everything produced with the filter's delay dropped |
| Resampling.Resampling.StagedIsAtMostAChunk | src/fingerprinting/resample.rs:65-71 | between calls 1 to 1024 frames are staged, once there are any |
| Resampling.Resampling.Push | src/fingerprinting/resample.rs:61-74 | every chunk but the last of what was received is resampled, or the clip's own refusal is reported |
| Resampling.Resampling.Finish | src/fingerprinting/resample.rs:77-95 | the result is that of resampling everything received as one clip, and it ends |
| Resampling.WholeClipIsAStretch | src/fingerprinting/resample.rs:77-95 | a resampled clip has exactly the length the ratio gives and is the stretch of what the filter produces over the clip and its flush that starts where the delay ends |
| ResamplingLaws.FilterHearsTheClip | src/fingerprinting/resample.rs:61-95 | the filter is given every frame of the clip once, in order, in chunks of 1024 and a last call of 1 to 1024, and then only silence |
| ResamplingLaws.DelayIsUndone | src/fingerprinting/resample.rs:77-135 | a clip through a filter that only delays, by however much, comes out whole: each frame as its sample, nothing lost or added |
| ResamplingLaws.RefusedCallRefusesClip | src/fingerprinting/resample.rs:68-88 | a clip one of whose calls the filter refuses is refused, with that error |
| Resampling.LengthIsNearTheRatio | src/fingerprinting/resample.rs:80-81 | that length is less than a frame off the exact product, up to 2^53 frames, and no less than it unless the product rounds down |
| Resampling.LengthIsOfRoundedCount | src/fingerprinting/resample.rs:80-81 | it depends on the frame count as a float |
| Resampling.SamplesAreWithinAStep | src/fingerprinting/resample.rs:118-122 | within full scale a sample is less than a step off its frame and keeps its sign though the product rounds; beyond it it is clipped |
| Resampling.SamplesKeepOrder | src/fingerprinting/resample.rs:118-122 | a higher frame never makes a lower sample |
| Resampling.SamplesAreTruncated | src/fingerprinting/resample.rs:118-122 | a sample is the whole part, toward zero, of what the product rounds to |
| Resampling.ResampleStream | src/fingerprinting/algorithm.rs:34-43 | however a clip is cut into pieces, empty ones included, the outcome is that of the whole clip, refusals included |
| PacketDecoding.FirstDecodable | src/fingerprinting/decode.rs:42-51 | the chosen track is the first with an audio codec there is a decoder for, and none is chosen only when there is none |
| PacketLaws.FirstTrackIsDecoded | src/fingerprinting/decode.rs:37-56 | the decoder is made of that track and listens to its id, whatever undecodable tracks come before it and whatever tracks after |
| PacketLaws.NoTrackIsUnsupported | src/fingerprinting/decode.rs:46-50 | a stream without such a track is unsupported |
| PacketLaws.OthersAreNotHeard | src/fingerprinting/decode.rs:150-152 | without the packets of other tracks, across resets, the transcript is the same but for their places: the decoder is never fed one |
| PacketLaws.OtherTracksAreSkipped | src/fingerprinting/decode.rs:131-152 | so a stream gives what it gives without them, except that one behind a refused packet keeps that from being the end |
| PacketLaws.StreamEndsThere | src/fingerprinting/decode.rs:105-129 | the end and an unexpected end of file end a stream alike, any other error and a reset to undecodable tracks with an error, and nothing behind is heard |
| PacketLaws.OtherErrorsRefuse | src/fingerprinting/decode.rs:105-129 | so a stream with such an error does not decode |
| PacketLaws.SilenceIsMalformed | src/fingerprinting/decode.rs:201-217 | a stream that decodes but holds no audio is malformed |
| PacketLaws.FormatChangeIsUnsupported | src/fingerprinting/decode.rs:231-242 | one that changes format is unsupported though all of it decodes |
| PacketDecoding.ChunksIffDecodes | src/fingerprinting/decode.rs:131-180 | reading on under one spec succeeds exactly when the stream ends without error, keeps the spec, and refuses at most its very last packet and that with an I/O error; and then gives every audible packet once, in order |
| PacketDecoding.StreamIffDecodes | src/fingerprinting/decode.rs:201-245 | the same from the opening packet on, which has to exist and sets the spec |
| PacketReading.LinksFollowOneAnother | src/fingerprinting/decode.rs:119-127 | a reset starts a fresh decoder and loses nothing of either side |
| PacketReading.MixDown | src/fingerprinting/decode.rs:168-176 | each mono frame is the sum of its channels, each over their number, rounded share by share and sum by sum |
| PacketLaws.MixIsTheMean | src/fingerprinting/decode.rs:168-176 | where nothing rounds, a mono frame times the number of channels is the sum of them, each once |
| PacketLaws.ShareIsFloat | src/fingerprinting/decode.rs:172-176 | what each channel adds is rounded |
| PacketLaws.MixIsFloat | src/fingerprinting/decode.rs:172-176 | and so is every sum |
| PacketReading.EqualChannelsMixToThemselves | src/fingerprinting/decode.rs:172-176 | channels that agree mix to what they agree on, where adding up their shares takes no rounding |
| PacketReading.OneOrTwoAddUp | src/fingerprinting/decode.rs:172-176 | which with one or two channels it never does, the share being a float |
| PacketReading.CutShortIsAPrefix | src/fingerprinting/decode.rs:107-117 | a stream that decodes whole gives, cut short anywhere, the chunks read until then, or is refused for having no audio yet |
| PacketReading.PacketDecoder.NextPacket | src/fingerprinting/decode.rs:105-129 | the next packet of any track across resets, or how the stream ends, a stream cut short ending like any other |
| PacketReading.PacketDecoder.EndOfStreamOr | src/fingerprinting/decode.rs:131-137 | a refusal is the end only if it is an I/O error and no packet of any track follows |
| PacketReading.PacketDecoder.Next | src/fingerprinting/decode.rs:141-180 | the next chunk the transcript of the stream has, its end or its error |
| PacketReading.MonoDecoder.NextChunk | src/fingerprinting/decode.rs:225-245 | takes one chunk off what remains, the first one included, and refuses a change of format |
| PacketReading.Open | src/fingerprinting/decode.rs:201-217 | the opened stream has all its chunks still to give, under the spec of the first |
| OpusHeader.WrittenHeadersParse | src/fingerprinting/opus_decoder.rs:79-148 | every readable header laid out as in section 5.1 of RFC 7845 parses to its own fields, signed gain included, whatever follows it |
| OpusHeader.AcceptsExactlyReadableHeaders | src/fingerprinting/opus_decoder.rs:53-148 | the parser accepts exactly the bytes that start with a readable header of family 0, 1 or 255 within its channel limit |
| OpusHeader.MappingHasEveryChannel | src/fingerprinting/opus_decoder.rs:110-148 | an accepted header maps each of its 1 to 255 channels |
| OpusHeader.HeaderIsNamed | src/fingerprinting/opus_decoder.rs:79-97 | an accepted header starts with the eight letters and a version below 16 |
| OpusHeader.GainIsSigned | src/fingerprinting/opus_decoder.rs:79-108 | its gain is the two bytes at 16, lower first, as a signed number |
| OpusHeader.CutTableIsMalformed | src/fingerprinting/opus_decoder.rs:79-148 | of the refused, exactly those are malformed whose mapping table is cut short; the rest are unsupported |
| OpusDecoding.OpusDecoder.DecodeRef | src/fingerprinting/opus_decoder.rs:230-262 | what a packet contributes and what skip stays owed, its frames taken off it whatever the container trims; a rejected packet contributes nothing and uses none up |
| OpusDecoding.KeptAreUntouched | src/fingerprinting/opus_decoder.rs:248-259 | what a packet contributes is one stretch: exactly its frames that neither the skip nor either trim reaches |
| OpusDecoding.GainMultiplies | src/fingerprinting/opus_decoder.rs:243-246 | every sample is multiplied by the gain |
| OpusDecoding.AmplifiedAreFloats | src/fingerprinting/opus_decoder.rs:243-246 | and the product rounded |
| OpusDecoding.GainIsApplied | src/fingerprinting/opus_decoder.rs:230-262 | the output of a run is what it would be at unity gain, amplified: skip and trims do not depend on it |
| OpusDecoding.DecodeRun | src/fingerprinting/opus_decoder.rs:230-262 | a decoder's buffers end to end are the output of the run of packets |
| OpusDecoding.OutputIsBounded | src/fingerprinting/opus_decoder.rs:248-259 | however it is trimmed, no run outputs more than what it decodes beyond the pre-skip |
| OpusDecoding.SkipIsConservedIff | src/fingerprinting/opus_decoder.rs:248-259 | the output is everything decoded less the first pre-skip frames exactly when each packet is swallowed by the skip or trimmed of nothing beyond it |
| OpusDecoding.LengthTellsTrims | src/fingerprinting/opus_decoder.rs:248-259 | the number of frames alone tells: it is that of everything beyond the pre-skip exactly under the same condition |
| OpusDecoding.WhoeverTrimsTheSkip | src/fingerprinting/opus_decoder.rs:248-259 | a container that trims the pre-skip itself and one that leaves it give the same output |
| OpusStream.BufferMixesToAverages | src/fingerprinting/decode.rs:164-176 | a buffer of interleaved frames mixes down to the average of each frame |
| OpusStream.AcceptedStream | src/fingerprinting/decode.rs:141-180 | a run of accepted Opus packets is heard packet by packet and comes to the average of each frame of the decoder's output |
| OpusStream.RejectedPacket | src/fingerprinting/opus_decoder.rs:233-238 | a packet libopus rejects is malformed and leaves skip and gain as they were |
| OpusStream.RejectedPacketRefuses | src/fingerprinting/opus_decoder.rs:233-238 | one such packet anywhere refuses the stream |
| OpusStream.UnopenedTrackIsUnsupported | src/fingerprinting/opus_decoder.rs:174-197 | a track without a header, or with a layout libopus will not open, is unsupported |
| OpusStream.OpusStreamIsDelivered | src/fingerprinting/opus_decoder.rs:174-262 | from header to mono audio: a stream of accepted packets is delivered at 48 kHz, under as many channels as the header maps, as the average of each output frame; and what is delivered is the average of each frame decoded beyond the pre-skip of its header if and only if the container trims nothing more |
| Pipeline.SegmentIsCentred | src/fingerprinting/algorithm.rs:47-64 | on any word size the segment is a stretch in bounds, of the length asked for or the whole, with margins that differ by the odd sample |
| Pipeline.SegmentIsCounted | src/fingerprinting/algorithm.rs:47-121 | its signature counts 16000 samples to each second asked for, 12 by default, or all there are |
| Pipeline.PcmSamples | src/fingerprinting/algorithm.rs:34-43 | decoding and resampling packet by packet gives the resampling of all chunks as one clip, or nothing exactly when either fails |
| Pipeline.RecordingIsOfItsRate | src/fingerprinting/algorithm.rs:34-43 | a recording is what the resampler of the stream's own rate makes of all its chunks |
| Pipeline.MakeSignature | src/fingerprinting/algorithm.rs:88-99 | the signature of a stream is the fingerprint of the middle of its recording |
| Pipeline.SegmentsRoundTrip | src/fingerprinting/algorithm.rs:47-99 | the signature of a segment of up to twenty hours decodes to itself |

## Left out

- Interpolation.LeanAtPeak: the rounding has no largest float; the magnitudes of finite powers stay below 2^18.
- Generator.SignatureGenerator.StorePeak: the sum of bin and lean wraps as in a release build; a debug build panics where `LeanSaturatesIff` says.
- Resampling.SamplesAreWithinAStep: frames are finite, so NaN (which the cast makes 0) and infinities are not modelled.
- Generator.SignatureGenerator.Process: the block counter is unbounded; its 32 bits would wrap after 2^39 samples, more than a terabyte of audio.
- SignatureFormat.EncodeToBinary: arithmetic wraps as in a release build; the panics overflow checks would add in a debug build are not modelled.
- OpusDecoding.OpusDecoder.DecodeRef: trims are unbounded, so their truncation to a 32-bit `usize` is not modelled, nor is the capacity of the audio buffer, which libopus keeps within 5760 frames.
- OpusHeader.WrittenHeadersParse: the output gain stays the Q7.8 decibels of the header; its power of ten is a parameter of the decoder.
- The FFT, the window table, the logarithm, CRC-32, the sinc filter, libopus, demuxers and the other codecs: libraries, present as parameters.
- `encode_to_uri`, `communication.rs` and the Python bindings: a prefix, base64, a clock reading and glue.
- Probing a byte source for its format, and error message wording beyond what tells errors apart.
- Pipeline.MakeSignature: failures are one outcome, as in `PcmSamples`, not told apart by cause.
- OpusStream.OpusStreamIsDelivered: the registry has Opus alone; the other codecs of the source's registry stay parameters of the packet decoder.
- A decoder that itself answers with a reset request, which the source refuses like any decode error.
