# Bitcrusher effect and WAV encoder, modelled in Dafny

This project models the two deterministic parts of a browser "bitcrusher" audio effect.

- **`Bitcrusher`** (`bitcrusher.dfy`) models the audio-worklet processor `BitcrusherProcessor`.
  Each processed block runs every sample of every input channel, channel after channel, through two stages.
  The first is sample-and-hold downsampling: a counter `phase` is incremented per sample, and the sample is captured when the counter is a multiple of the downsample factor.
  The second is bit-depth quantisation of the held value: `floor((x+1)/2 · steps) / (steps−1) · 2 − 1` with `steps = 2^bitDepth`.
  The processor is a class with the two fields `phase` and `lastSampleValue`.
  `Process` writes its output arrays in place.
  Its contract ties the new state and every output channel to the pure specification `Run`/`Crushed` over the samples of all channels in order.
  The state is one pair shared by all channels and kept from one block to the next, exactly as the code has it.
  Channel 1 therefore continues the counter where channel 0 stopped.
- **`Wav`** (`wav.dfy`) models `audioBufferToWav`.
  It fills a byte array through a moving cursor: first the 44-byte RIFF/WAVE header (PCM format 1, 16 bits per sample), then every frame's samples in channel order, as little-endian 16-bit integers.
  `AudioBufferToWav` is proved to produce exactly `WavBytes(buffer)`, a pure description of the file.
  Lemmas about `WavBytes` give its length, every header field at its offset, the position of every sample, and a round trip through a header reader.

Samples are exact reals: `.Floor` stands for `Math.floor`, and `| 0` on an in-range value stands for truncation toward zero.
`DataView.setUint16`/`setUint32` take their argument modulo 2^16/2^32, and the model writes that wrap-around out.

Two behaviours of the code are modelled as written and stated as lemmas:

- **Top rail.** A held value of exactly 1 quantises to index `steps`, so the output is `(steps+1)/(steps−1) > 1` (`QuantiseTopRail`, `CapturedTopRailOvershoots`).
  Quantisation is idempotent for held values whose index is below `steps−1`, that is on [−1, 1 − 2/steps) (`QuantiseIdempotent`).
  It is not idempotent in the top bin [1 − 2/steps, 1), whose output 1 re-quantises above 1 (`QuantiseTopBinNotIdempotent`).
  The rail value 1 already maps outside [−1, 1] (`QuantiseTopRail`), and `QuantiseIdempotent` says nothing about held values outside [−1, 1 − 2/steps).
- **Scale choice.** The encoder tests `0.5 + sample < 0`, so only samples below −0.5 are scaled by 32768.
  Samples in [−0.5, 1] are scaled by 32767; for example −0.5 becomes −16383 rather than −16384 (`PcmSampleScaleQuirk`).

A hold state per channel, or a quantiser that clamps its index, would change the behaviour; the model follows the code and uses neither.
On [−1, 1) the output differs from the held value by at most 2/steps, which is 1/32768 at 16 bits (`QuantiseError`).
The bound is reached just below the top bin, at 1 − 2/steps (`QuantiseErrorTight`).

Some inner parts of the two source functions are separate methods here, so that each loop is proved on its own:

- `ProcessChannel` is the per-channel loop of `process`.
- `WriteHeader` is the header writes of `audioBufferToWav`, in three groups: `WriteRiffFields`, `WriteFmtChunk` and `WriteDataFields`.
- `WriteSamples` is its `while (pos < length)` loop.
- `WriteFrame` is the inner `for` loop.

They run the same statements in the same order as the source.

## Model

| member | source | states |
|---|---|---|
| `Bitcrusher.Steps` | bitcrusher-processor.js:36 | for a bit depth within the descriptor bounds [1,16], the number of levels is between 2 and 65536, so the divisor `steps − 1` is at least 1 |
| `Bitcrusher.EffectiveDownsample` | bitcrusher-processor.js:32 | the factor used is at least 1 (the modulo never divides by zero); for a parameter ≥ 1 it is the parameter rounded down, and below 1 it is 1 |
| `Bitcrusher.Level` | bitcrusher-processor.js:55-57 | the quantisation index `floor((held+1)/2 · steps)`, as written; no contract of its own; its range and order are stated by `QuantiseRange`, `QuantiseTopRail` and `QuantiseMonotone` |
| `Bitcrusher.Quantise` | bitcrusher-processor.js:55-61 | the four-step formula as written (normalise, floor, dequantise, denormalise); no contract of its own; its properties are the `Quantise*` lemmas below |
| `Bitcrusher.QuantiseRange` | bitcrusher-processor.js:55-61 | for a held value in [−1,1) the quantisation index lies in [0, steps−1] and the output in [−1,1] |
| `Bitcrusher.QuantiseTopRail` | bitcrusher-processor.js:55-61 | a held value of exactly 1 gives index `steps` and output `(steps+1)/(steps−1)`, which is above 1 |
| `Bitcrusher.QuantiseIdempotent` | bitcrusher-processor.js:55-61 | re-quantising a quantised value returns it unchanged when its index is below `steps−1` (held values in [−1, 1 − 2/steps)) |
| `Bitcrusher.QuantiseTopBinNotIdempotent` | bitcrusher-processor.js:55-61 | in the top bin the output is exactly 1, and quantising it again gives a value above 1 |
| `Bitcrusher.QuantiseMonotone` | bitcrusher-processor.js:55-61 | quantisation preserves order (both the index and the output) |
| `Bitcrusher.QuantiseError` | bitcrusher-processor.js:55-61 | for a held value in [−1,1) the output differs from it by at most 2/steps |
| `Bitcrusher.QuantiseErrorTight` | bitcrusher-processor.js:55-61 | the bound is attained: the held value 1 − 2/steps lies in [−1,1) and its output is exactly 2/steps above it |
| `Bitcrusher.Captures` | bitcrusher-processor.js:45-46 | whether the incremented counter is a multiple of the factor; no contract of its own; `TickBelow` shows that from a counter below the factor it holds exactly when the incremented counter equals the factor |
| `Bitcrusher.Tick` | bitcrusher-processor.js:45-49 | one sample through the hold stage: capture and reset to 0 when `Captures`, otherwise count and keep the held value; no contract of its own |
| `Bitcrusher.Run` | bitcrusher-processor.js:42-49 | the hold state after a sample sequence, one `Tick` per sample in order; no contract of its own; characterised by `RunAppend`, `RunCounts` and `RunHeld` |
| `Bitcrusher.Crushed` | bitcrusher-processor.js:42-61 | one output per input sample, each the quantised held value after that sample's tick; characterised by `CrushedAt`, `CrushedAppend` and `CrushedInRange` |
| `Bitcrusher.Flatten` | bitcrusher-processor.js:38-42 | the samples of all channels, channel after channel: the order in which the shared state sees them; no contract of its own |
| `Bitcrusher.RunAppend` | bitcrusher-processor.js:38-49 | the hold state after xs then ys is the state after ys started from the state after xs: nothing is reset between channels or blocks |
| `Bitcrusher.CrushedAppend` | bitcrusher-processor.js:38-61 | processing a sample run in two consecutive blocks gives the same outputs as processing it in one |
| `Bitcrusher.CrushedAt` | bitcrusher-processor.js:45-61 | output i is the quantised held value right after sample i has been counted (and captured if due) |
| `Bitcrusher.RunCounts` | bitcrusher-processor.js:45-49 | from a counter p below d, after n samples the counter is (p+n) mod d and exactly (p+n) div d samples were captured |
| `Bitcrusher.RunHeld` | bitcrusher-processor.js:45-51 | from a counter p below d, after n samples the held value is the input (p+n) mod d samples back, or the previous held value when no capture has happened yet |
| `Bitcrusher.CaptureOncePerWindow` | bitcrusher-processor.js:45-49 | any d consecutive samples contain exactly one capture |
| `Bitcrusher.NoHoldAtFactorOne` | bitcrusher-processor.js:45-61 | with a factor of 1 every output is the quantised input sample itself |
| `Bitcrusher.HeldInRange` | bitcrusher-processor.js:45-51 | the held value stays in [−1,1) when the initial value and all inputs do |
| `Bitcrusher.CrushedInRange` | bitcrusher-processor.js:45-61 | with the held value and the inputs in [−1,1), every output lies in [−1,1] |
| `Bitcrusher.CapturedTopRailOvershoots` | bitcrusher-processor.js:45-61 | an input sample of exactly 1 that is captured produces an output above 1 |
| `Bitcrusher.ChannelStartPhase` | bitcrusher-processor.js:38-49 | channel c starts with the counter advanced by the sample counts of all earlier channels of the block (shared state) |
| `Bitcrusher.BitcrusherProcessor.constructor` | bitcrusher-processor.js:3-7 | a new processor starts with counter 0 and held value 0 |
| `Bitcrusher.BitcrusherProcessor.Process` | bitcrusher-processor.js:28-67 | returns true; the new state is the old state run over all input samples channel by channel; each output channel c < input count holds the crushed samples of input channel c, starting from the state left by the channels before it; output channels beyond the input count are unchanged; no input channels leave the state unchanged |
| `Bitcrusher.BitcrusherProcessor.ProcessChannel` | bitcrusher-processor.js:42-62 | one channel's loop: the state advances over the channel's samples and the output array holds their crushed values |
| `Wav.LE16RoundTrip` | offline-renderer.js:94-97 | the two bytes written for a 16-bit field read back as the value modulo 2^16 |
| `Wav.LE32RoundTrip` | offline-renderer.js:99-102 | the four bytes written for a 32-bit field read back as the value modulo 2^32 |
| `Wav.LE16` | offline-renderer.js:94-97 | the two bytes `setUint16(pos, v, true)` stores, taking v modulo 2^16, low byte first; its read-back is `LE16RoundTrip` |
| `Wav.LE32` | offline-renderer.js:99-102 | the four bytes `setUint32(pos, v, true)` stores, taking v modulo 2^32, low byte first; its read-back is `LE32RoundTrip` |
| `Wav.Int16RoundTrip` | offline-renderer.js:86 | a value in [−32768, 32767] written as a little-endian int16 reads back unchanged |
| `Wav.TagsSpellIdentifiers` | offline-renderer.js:59-74 | the 32-bit tag constants written little-endian spell "RIFF", "WAVE", "fmt " and "data" |
| `Wav.TruncateToInt` | offline-renderer.js:85 | `| 0` truncates toward zero: the result is within 1 of the value and not farther from zero |
| `Wav.PcmSample` | offline-renderer.js:84-85 | the converted sample always lies in [−32768, 32767] |
| `Wav.PcmSampleRails` | offline-renderer.js:84-85 | samples ≥ 1 become 32767, samples ≤ −1 become −32768, and 0 becomes 0 |
| `Wav.PcmSampleScaleQuirk` | offline-renderer.js:85 | samples in [−0.5, 0) are scaled by 32767, not 32768: −0.5 becomes −16383 |
| `Wav.PcmSampleMonotone` | offline-renderer.js:84-85 | the conversion preserves order |
| `Wav.Header` | offline-renderer.js:59-75 | the header is 44 bytes long |
| `Wav.RiffFields` | offline-renderer.js:59-61 | "RIFF", file length − 8, "WAVE": 12 bytes; fields read back by `HeaderFields` |
| `Wav.FmtChunk` | offline-renderer.js:64-71 | the "fmt " chunk: 24 bytes of identifier, size 16, format 1, channels, sample rate, byte rate, block align and 16 bits; fields read back by `HeaderFields` |
| `Wav.DataFields` | offline-renderer.js:74-75 | "data" and the size length − 44: 8 bytes; fields read back by `HeaderFields` |
| `Wav.SetUint16` | offline-renderer.js:94-97 | writes the value little-endian at the cursor, advances the cursor by exactly 2, and leaves the other bytes unchanged |
| `Wav.SetUint32` | offline-renderer.js:99-102 | writes the value little-endian at the cursor, advances the cursor by exactly 4, and leaves the other bytes unchanged |
| `Wav.SetInt16` | offline-renderer.js:86 | writes the two's-complement value little-endian at the cursor and leaves the other bytes unchanged |
| `Wav.Frame` | offline-renderer.js:83-88 | one sample of each channel at one frame, in channel order; as many samples as channels |
| `Wav.Interleave` | offline-renderer.js:82-90 | the first n frames one after another; no contract of its own; `InterleaveLength` and `InterleaveAt` give its length and positions |
| `Wav.EncodeSamples` | offline-renderer.js:84-87 | each sample converted by `PcmSample` and stored as two little-endian bytes, in order; no contract of its own; `EncodeLength`, `EncodeAt` and `SilenceEncodesToZeros` state its properties |
| `Wav.WavBytes` | offline-renderer.js:48-103 | the whole file: the header followed by the encoded interleaved samples; no contract of its own; `WavLength`, `WavHeaderFields`, `WavSampleAt` and `HeaderRoundTrip` state its properties |
| `Wav.WriteHeader` | offline-renderer.js:56-75 | from cursor 0, the header writes leave the cursor at 44 and the first 44 bytes equal to the header; the data size written at cursor 40 is length − 44; the bytes from 44 on are unchanged |
| `Wav.WriteRiffFields` | offline-renderer.js:59-61 | writes "RIFF", the file length − 8 and "WAVE" at the cursor and advances it by 12; the bytes after the new cursor are unchanged |
| `Wav.WriteFmtChunk` | offline-renderer.js:64-71 | writes the "fmt " chunk at the cursor (size 16, PCM format 1, channels, sample rate, byte rate, block align, 16 bits) and advances it by 24; the bytes after the new cursor are unchanged |
| `Wav.WriteDataFields` | offline-renderer.js:74-75 | from cursor 36, writes "data" and a size computed from the cursor that equals length − 44, and leaves the cursor at 44; the bytes after the new cursor are unchanged |
| `Wav.WriteFrame` | offline-renderer.js:83-88 | writes the encoded samples of one frame in channel order and advances the cursor by 2 per channel; the bytes after the new cursor are unchanged |
| `Wav.WriteSamples` | offline-renderer.js:82-90 | the data loop ends with the cursor at the file length, and the bytes after the header are the encoded interleaved frames |
| `Wav.AudioBufferToWav` | offline-renderer.js:48-103 | returns a new byte array equal to `WavBytes(buffer)`: the header followed by the encoded interleaved samples |
| `Wav.WavLength` | offline-renderer.js:50-51 | the file has exactly 44 + frames × channels × 2 bytes |
| `Wav.HeaderFields` | offline-renderer.js:59-75 | every field of the header at its offset: the identifiers, RIFF size, fmt size 16, format 1, channels, sample rate, byte rate, block align, 16 bits, data size (each modulo its width) |
| `Wav.WavHeaderFields` | offline-renderer.js:59-75 | in the produced file the RIFF size at offset 4 is length − 8, the data size at offset 40 is length − 44, the identifiers are at 0, 8, 12 and 36, and the fmt fields at 16-35 are 16, 1, channels, sample rate, sample rate × 2 × channels, channels × 2 and 16 |
| `Wav.EncodeAt` | offline-renderer.js:82-90 | sample k of a sample sequence is encoded at bytes 2k and 2k+1 |
| `Wav.InterleaveAt` | offline-renderer.js:82-90 | the sample of channel c at frame f sits at position f × channels + c of the interleaved samples |
| `Wav.WavSampleAt` | offline-renderer.js:82-89 | the sample of channel c at frame f is the little-endian int16 of its conversion at byte 44 + 2(f × channels + c) |
| `Wav.SilenceEncodesToZeros` | offline-renderer.js:84-87 | all-zero samples, as a gain of 0 produces, encode to an all-zero data chunk |
| `Wav.HeaderRoundTrip` | offline-renderer.js:59-75 | when every field fits its width, reading the produced header gives back the channel count, the sample rate and a data size of frames × channels × 2 |

## Left out

- `renderOffline` (offline-renderer.js:4-41) is not modelled. It builds an offline audio graph in the browser (source node, worklet node, gain node) and awaits its rendering. The gain stage and the 128-frame render-quantum scheduling are done by the browser, not by code in this repository.
- main.js is not part of this model. It holds the page wiring: file loading and decoding, sliders, playback, downloads, and the patched `connect` used to find the gain node.
- `registerProcessor`, the `parameterDescriptors` metadata and the k-rate timing of parameter changes are left out. `Process` receives one value per parameter for the whole block, and the descriptor bounds of `bitDepth` become a precondition.
- Floating-point behaviour is not modelled. Samples are exact reals, so IEEE-754 rounding in `Math.pow`, division, `Math.floor` and Float32 storage, as well as NaN and infinite samples, are outside the model.
- `Bitcrusher.BitcrusherProcessor.Process`: takes `bitDepth` as an integer in [1,16]. The sliders only produce integers, so a fractional bit depth, and the non-integer `steps` it would give, is not modelled.
- `Bitcrusher.BitcrusherProcessor.Process`: requires one distinct output array per channel, each as long as its input channel, as the audio engine supplies them. JavaScript's behaviour for other shapes is not modelled: writes past the end of a typed array are ignored, and a missing output channel throws.
- `Wav.AudioBufferToWav`: requires every channel to hold `length` samples, as an `AudioBuffer` guarantees. Allocation failure for an oversized buffer is not modelled.
- `Wav.HeaderRoundTrip`: holds only when every field fits its width. Outside those bounds the header fields wrap modulo 2^16 or 2^32, as `HeaderFields` states.
- No error results are modelled for zero channels or an empty buffer, because the code has none. A buffer with zero channels is encoded as a bare 44-byte header.
