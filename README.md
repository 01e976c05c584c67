# Scrolling spectrum waterfall: a verified model of its core

This project models, in Dafny, the core of a scrolling spectrum-waterfall viewer. It covers three parts.

- **`WaterfallPlot`** (`plot.dfy`, module `Plot`) keeps a history of 8 tiles of 1024 rows each, plus one scratch texture.
  - Every `update_plot` moves the write head one row forward, wrapping modulo 8192.
  - It renders the new row into the tile that owns the head. The ping-pong bit swaps the target tile and the scratch texture between render source and render target.
  - A paused view lags behind the head. While paused, the lag ages by one row per update.
  - The composite pass then shows two consecutive tiles. In place of the tile being written, it shows the texture that was just rendered.
  - `scroll` moves the lag and clamps it to [0, 7167]. The view follows the head again exactly when the lag is 0.
  - The GL calls are replaced by a log of passes. Each entry records the texture indices the pass binds and its offset uniforms.
- **`DataSupplier`** (`source.dfy`, module `Source`) is the stdin supplier.
  - Each `get_block` zeroes a 2048-bin accumulator.
  - It then reads `averaging` frames of interleaved signed 8-bit I/Q samples. A failed read panics, with no retry.
  - It decodes each frame to complex samples in [-1, 127/128] and transforms it with an FFT, which the model does not interpret.
  - It adds the squared magnitude of each bin into the same accumulator bin, and finally scales the accumulator by `1/averaging`.
- **`AmaltheaDataSupplier`** (`am_source.dfy`, module `AmSource`) is the USB receiver supplier.
  - Its register writes are modelled as a log of vendor control writes.
  - `set_samplerate` picks the nearest entry of an 8-entry rate table; a strict `<` makes ties go to the lowest index.
  - `set_frequency` splits the channel word into its two bytes.
  - `get_block` decodes little-endian i16 I/Q pairs and averages their squared magnitude with no FFT. The whole 8192-byte buffer is decoded after every bulk transfer, whatever the transfer's length.
  - This file is not declared as a module in `src/main.rs:1-2`, so the shipped program never builds it. It is modelled all the same; `set_samplerate` is modelled with the corrected distance (see Left out and Findings).

Two shared modules support these:
- `machine.dfy` (`Machine`) holds the u32/i32 helpers, with release-build wrap-around written out.
- `spectrum.dfy` (`Spectrum`) holds the byte, complex and accumulator definitions the two suppliers share.

f32 arithmetic is modelled over the reals. The device is modelled by its inputs:
- each `get_block` takes the sequence of read or transfer outcomes it sees;
- the FFT is a function-valued field whose only assumed property is that it maps 2048 samples to 2048 bins.

Some consequences of the code that a reader might not expect:
- **`scroll(-2000)` from a following view** clamps the lag to 0: `scroll` adds `val` to the lag and clamps (`src/plot.rs:341-344`). `Plot.Scenario` proves this, and proves that `scroll(2000)` gives lag 2000.
- **Failed reads.** Neither supplier retries or skips a failed read: any failed read panics (`src/source.rs:51-53`, `src/am_source.rs:131`). The model records this as a `Panicked` outcome at the first failed read.
- **Stale bytes.** The accumulator is zeroed at the start of every call, but the USB supplier's transfer buffer is not.
  - `read_bulk`'s byte count is ignored (`src/am_source.rs:131`), so a short transfer decodes stale bytes left in the buffer, possibly by an earlier call (`AmSource.EmptyTransferLeaks`).
  - With complete transfers, nothing leaks (`AmSource.CompleteTransfersForgetBuffer`).
- **Compositing** is part of `update_plot`; there is no separate draw call.

## Model

| member | source | states |
|---|---|---|
| Machine.WrapI32 | src/plot.rs:341 | an i32 `+` in a release build: the result is in i32 range, congruent to the exact sum modulo 2^32, and equal to it when it fits |
| Machine.U32AsI32 | src/am_source.rs:97 | `u32 as i32`: same bits read as two's complement, in i32 range |
| Machine.I32AsU32 | src/am_source.rs:97 | `i32 as u32`: same bits read as unsigned, in u32 range |
| Machine.AbsI32 | src/am_source.rs:97 | `i32::abs` in a release build: the exact absolute value except that i32::MIN maps to itself |
| Plot.Initial | src/plot.rs:127-190 | the state `new` builds (`pingpong` 0, lag 0, head 0, following) satisfies the class invariant |
| Plot.Xor1 | src/plot.rs:302 | `pingpong ^= 1` flips the parity and keeps the other bits |
| Plot.TargetTile | src/plot.rs:227-228 | the target tile is one of the 8 history tiles, never the scratch index 8, and it owns the head row |
| Plot.RolesFor | src/plot.rs:229-233 | front and back are the target tile and the scratch texture, always distinct; front is the target exactly when `pingpong == 0` |
| Plot.AgedLag | src/plot.rs:239-243 | the lag grows by exactly one iff the view is paused and below 7167, otherwise it is unchanged |
| Plot.ScrollOffset | src/plot.rs:244-245 | the shown row is below 8192 and lies `lag` rows behind the head modulo 8192 |
| Plot.PrevTile | src/plot.rs:249 | `tex_idx1` is a history tile other than `tex_idx0`, and the one right before it in the ring |
| Plot.FrameOf | src/plot.rs:226-249 | the head advances modulo 8192; the tile written is `TargetTile` of the new head row, the tile that contains it; front and back are the target and the scratch texture, front being the target exactly when `pingpong == 0`; the lag ages as `AgedLag`; the shown row lies `lag` rows behind the head and splits into `tex_idx0 * 1024 + cm_offset` with `cm_offset < 1024`; `tex_idx1` is the tile before `tex_idx0`; a following view shows the head row |
| Plot.CompositeBindings | src/plot.rs:250-259 | `cm_tex0`/`cm_tex1` are distinct, at most 8 and never the back texture; a tile index is replaced by front exactly when it is the target tile; a following view shows the target tile through front |
| Plot.PassesOf | src/plot.rs:264-300 | one waterfall pass carrying the samples and a row below 1024, then one composite pass |
| Plot.PassesReadNoTextureTheyWrite | src/plot.rs:229-300 | no pass samples a texture it renders into: the waterfall pass reads back and writes front, the composite pass binds two distinct textures, never back, and binds front exactly where the view reaches the target tile |
| Plot.Update | src/plot.rs:221-302 | the head advances modulo 8192, the ping-pong parity flips, the lag ages as `AgedLag` says, the follow flag is kept, and the class invariant is preserved |
| Plot.ScrollLag | src/plot.rs:340-344 | the new lag is `lag + val` when that is in [0, 7167], saturates at 7167 above and at 0 below |
| Plot.Clamp | src/plot.rs:341-344 | `max(0).min(7167)` returns the point of [0, 7167] nearest its argument |
| Plot.ScrollState | src/plot.rs:340-346 | `scroll` leaves head and ping-pong untouched, sets the lag to `ScrollLag`, follows exactly at lag 0, and preserves the class invariant |
| Plot.WaterfallPlot.constructor | src/plot.rs:127-190 | a new plot is in the initial state with an empty pass log |
| Plot.WaterfallPlot.UpdatePlot | src/plot.rs:221-303 | the new fields are `Update` of the old, and the log grows by the waterfall pass (back into front, row `y_offset % 1024`) and then the composite pass (`cm_tex0`, `cm_tex1`, `cm_offset`); the invariant is kept |
| Plot.WaterfallPlot.Scroll | src/plot.rs:340-346 | the new fields are `ScrollState` of the old, no pass is issued, and the invariant is kept |
| Plot.RunFromNew | src/plot.rs:221-302 | after k updates from `new` the head is k mod 8192, `pingpong` is k mod 2, and the view still follows |
| Plot.ReplayKeepsConsistent | src/plot.rs:221-346 | any interleaving of updates and scrolls, however large the deltas, keeps the lag in [0, 7167] and the invariant |
| Plot.PausedViewHoldsStill | src/plot.rs:239-245 | a paused view below the maximum lag shows the same row after an update |
| Plot.MaxLagViewAdvances | src/plot.rs:239-245 | at the maximum lag the view moves one row per update |
| Plot.ChainWithinTile | src/plot.rs:229-302 | within one tile, each waterfall pass reads the texture the previous one wrote |
| Plot.LastRowLandsInOwnTile | src/plot.rs:226-233 | the last row of a tile is rendered into the tile's own texture |
| Plot.FirstRowReadsOwnTile | src/plot.rs:226-233 | the first row of a tile is rendered from the tile into the scratch texture |
| Plot.TileBoundary | src/plot.rs:239-249 | for a view moving with the head (following, or at the maximum lag), when the next frame's `cm_offset` is 0 its `tex_idx0` is the current one plus one modulo 8 |
| Plot.Scenario | src/plot.rs:221-346 | 1025 updates give head 1025 in tile 1; `scroll(2000)` gives lag 2000, `scroll(-2000)` gives lag 0; a paused view ages by one |
| Plot.ScrollLagAsWritten | src/plot.rs:341-344 | the lag with the i32 sum wrapping: agrees with `ScrollLag` whenever the sum fits in i32 |
| Plot.ScrollOverflowCounterexample | src/plot.rs:341-344 | from lag 1, `scroll(i32::MAX)` as written lands at lag 0, where the exact sum clamps to 7167 |
| Spectrum.MagSq | src/source.rs:69-70 | the power of a bin is never negative |
| Spectrum.Interleaved | src/am_source.rs:142 | pairing an even-length stream gives half as many samples |
| Spectrum.InterleavedFlattened | src/am_source.rs:142 | pairing a flattened stream gives the samples back |
| Spectrum.FlattenedInterleaved | src/am_source.rs:142 | flattening the pairs gives the stream back |
| Spectrum.BinSum | src/source.rs:68-71 | an accumulator bin is never negative |
| Spectrum.MeanPower | src/source.rs:74-78 | the block has one non-negative entry per bin |
| Spectrum.Mean | src/source.rs:75-78 | scaling a non-negative sum by `1/averaging` gives a value between 0 and the sum |
| Spectrum.BinSumSnoc | src/source.rs:68-71 | one more frame adds its own bin-i power to bin i |
| Spectrum.BinSumLocal | src/source.rs:68-71 | bin i depends on bin i of the frames alone: bins are not mixed |
| Spectrum.BinSumConcat | src/source.rs:49-71 | accumulating two runs of frames is the sum of accumulating each |
| Spectrum.BinSumRepeated | src/source.rs:49-71 | k copies of a frame accumulate to k times its power |
| Spectrum.SingleFrame | src/source.rs:74-78 | with averaging 1 the block is the one frame's powers |
| Spectrum.PayloadsSnoc | src/source.rs:49-53 | one more successful read appends its bytes to the payloads read so far |
| Spectrum.MeanOfIdentical | src/source.rs:74-78 | with N identical frames the block is that frame's powers: a mean, not a sum |
| Source.AsI8 | src/source.rs:58-59 | `u8 as i8` lies in [-128, 128) and is congruent to the byte modulo 256 |
| Source.I8Byte | src/source.rs:58-59 | the inverse of `AsI8` |
| Source.I8RoundTrip | src/source.rs:58-59 | reading a byte as i8 and back gives the byte |
| Source.Normalize8 | src/source.rs:56-60 | an i8 over 128 lies in [-1, 127/128] |
| Source.Samples8 | src/source.rs:56-61 | sample i takes re from byte 2i and im from byte 2i+1, both over 128 and in [-1, 127/128] |
| Source.FrameSpectrum | src/source.rs:64-65 | the FFT of a frame has 2048 bins |
| Source.Spectra | src/source.rs:49-65 | the FFT of every frame read, in order |
| Source.Block | src/source.rs:45-81 | the block has 2048 non-negative entries |
| Source.BlockOfOneFrame | src/source.rs:45-81 | with averaging 1 the block is the squared magnitude of the frame's FFT |
| Source.BlockOfIdenticalFrames | src/source.rs:74-78 | averaging N identical frames gives the squared magnitude of that frame's FFT |
| Source.DataSupplier.constructor | src/source.rs:27-43 | a new supplier has buffers of the source's sizes, all zeroed |
| Source.DataSupplier.GetBlock | src/source.rs:45-81 | the call delivers exactly when all `averaging` reads succeed, otherwise panics at the first failed read; on delivery the accumulator is the mean power of the FFTs of the frames read in this call, whatever it held before, the byte buffer holds the last frame and the complex buffer that frame's FFT |
| Source.DataSupplier.ReadAndAccumulate | src/source.rs:51-71 | one loop round: the byte buffer holds the frame, the complex buffer its FFT, and each bin adds that FFT bin's power |
| Source.DataSupplier.ResetAccumulator | src/source.rs:47 | every bin is zero |
| Source.DataSupplier.ReadExact | src/source.rs:51-53 | the buffer holds exactly the bytes read |
| Source.DataSupplier.ConvertFrame | src/source.rs:56-61 | the complex buffer is the decoded frame |
| Source.DataSupplier.Transform | src/source.rs:63-65 | the complex buffer is overwritten in place by the FFT of its old contents |
| Source.DataSupplier.Accumulate | src/source.rs:68-71 | each bin adds the power of the same bin of the complex buffer |
| Source.DataSupplier.Scale | src/source.rs:75-78 | the accumulator becomes the mean power |
| AmSource.FrequencyWrites | src/am_source.rs:83-85 | low byte to 0x205, high byte to 0x206, then 0 to 0x208, and the two bytes rebuild ccf0 |
| AmSource.RateTable | src/am_source.rs:91 | 8 strictly decreasing rates between 400 kHz and 4 MHz, with the truncated 1333333 and 666666 |
| AmSource.RateRegisterValue | src/am_source.rs:107 | bit 7 set, the rate code in bits 0-6 and nothing above bit 7: the value is exactly `0x80 \| code` |
| AmSource.FirstMin | src/am_source.rs:94-102 | over the first n entries, the scan with strict `<` returns an index of the least one, with every earlier index strictly larger |
| AmSource.RateErrors | src/am_source.rs:97 | the error of an entry is zero exactly when the request is that entry |
| AmSource.SelectRate | src/am_source.rs:94-105 | the chosen index is one of the 8 entries |
| AmSource.NearestRate | src/am_source.rs:94-105 | the chosen entry minimises the distance to the request, and ties go to the lowest index |
| AmSource.SupportedRateIsKept | src/am_source.rs:91-105 | requesting a table rate selects exactly that rate |
| AmSource.MidwayTieGoesToFirst | src/am_source.rs:98-107 | 3 MHz selects 4 MHz rather than 2 MHz and writes 0x81 |
| AmSource.RateErrorAsWritten | src/am_source.rs:97 | the error as written, with wrap-around: a u32, equal to the exact distance below 2^31 |
| AmSource.RateErrorsAsWritten | src/am_source.rs:97 | each as-written error is a u32, and below 2^31 the as-written errors are exactly `RateErrors` |
| AmSource.SelectRateAsWritten | src/am_source.rs:94-102 | the index the as-written scan returns |
| AmSource.SelectRateAsWrittenAgrees | src/am_source.rs:94-102 | below 2^31 the as-written and exact selections agree |
| AmSource.SelectRateAsWrittenCounterexample | src/am_source.rs:97 | for 4000000000 the as-written scan picks 400 kHz; the nearest entry is 4 MHz |
| AmSource.AsI16 | src/am_source.rs:134 | two little-endian bytes read as i16 lie in [-32768, 32768) and are congruent to `lo + 256*hi` modulo 2^16 |
| AmSource.I16Bytes | src/am_source.rs:134 | the inverse of `AsI16` |
| AmSource.I16RoundTrip | src/am_source.rs:134 | decoding two bytes and encoding the value gives the bytes back |
| AmSource.Normalize16 | src/am_source.rs:137-139 | an i16 over 32768 lies in [-1, 1) |
| AmSource.Normalized16 | src/am_source.rs:134-139 | every normalised value lies in [-1, 1) |
| AmSource.Normalized16RoundTrip | src/am_source.rs:134-139 | normalising loses nothing: value k times 32768, stored little-endian, gives bytes 2k and 2k+1 back |
| AmSource.Samples16 | src/am_source.rs:134-142 | a raw buffer of 4n bytes gives n complex samples |
| AmSource.Samples16Layout | src/am_source.rs:134-142 | sample i takes re from bytes 4i, 4i+1 and im from bytes 4i+2, 4i+3, each in [-1, 1) |
| AmSource.Overlay | src/am_source.rs:131 | a transfer puts the received bytes at the front and keeps the old tail |
| AmSource.BufferAfter | src/am_source.rs:128-131 | the buffer stays 8192 bytes through any sequence of transfers |
| AmSource.Held | src/am_source.rs:128-134 | one full-size buffer decoded per transfer |
| AmSource.HeldSnoc | src/am_source.rs:128-131 | one more transfer overlays its bytes on the current buffer and adds that buffer state as the next frame |
| AmSource.FullTransferReplaces | src/am_source.rs:131 | a complete transfer replaces the whole buffer |
| AmSource.CompleteTransfersHoldOwnBytes | src/am_source.rs:128-131 | with complete transfers the frames decoded are exactly the bytes received |
| AmSource.EmptyTransferRepeats | src/am_source.rs:131 | a transfer of no bytes leaves the buffer unchanged |
| AmSource.SamplesOf | src/am_source.rs:128-142 | the samples of every frame, 2048 per frame |
| AmSource.SamplesOfSnoc | src/am_source.rs:128-142 | one more frame adds its own samples at the end |
| AmSource.HeldSamplesSnoc | src/am_source.rs:128-142 | one more transfer adds the samples of the buffer state it leaves |
| AmSource.AmBlock | src/am_source.rs:123-156 | the block has 2048 non-negative entries |
| AmSource.AmBlockOfOneTransfer | src/am_source.rs:145-153 | with one complete transfer the block is the power of each raw sample: no transform is applied |
| AmSource.CompleteTransfersForgetBuffer | src/am_source.rs:126-153 | with complete transfers the block does not depend on the buffer's earlier contents |
| AmSource.EmptyTransferLeaks | src/am_source.rs:126-153 | an empty transfer yields the power of whatever the buffer held before the call |
| AmSource.AmaltheaDataSupplier.constructor | src/am_source.rs:35-73 | writes LVDS mode (0x16, 0xa) then AGC off (0x0, 0x20B); frequency and rate are 0; buffers are zeroed |
| AmSource.AmaltheaDataSupplier.WriteReg | src/am_source.rs:75-77 | appends one control write, `reg` as wValue and `value` as wIndex |
| AmSource.AmaltheaDataSupplier.SetFrequency | src/am_source.rs:79-86 | stores the frequency and appends the three writes of `FrequencyWrites` |
| AmSource.AmaltheaDataSupplier.SetSamplerate | src/am_source.rs:88-109 | stores the nearest table rate (first on ties) and appends its code, with bit 7 set, to register 0x20A |
| AmSource.AmaltheaDataSupplier.NearestIndex | src/am_source.rs:94-102 | the scan starting from `u32::MAX` and replacing only on a strictly smaller error returns `SelectRate`, the first nearest entry (exact distance; see Left out) |
| AmSource.AmaltheaDataSupplier.GetBlock | src/am_source.rs:123-156 | delivers exactly when all `averaging` transfers succeed, otherwise panics at the first failure; on delivery the buffer is the overlay of the transfers on its old contents, the accumulator is the mean power of the raw samples of each buffer state, and the f32 buffer holds the decoded final buffer |
| AmSource.AmaltheaDataSupplier.ResetAccumulator | src/am_source.rs:126 | every bin is zero |
| AmSource.AmaltheaDataSupplier.ReceiveInto | src/am_source.rs:131 | the buffer is the received bytes overlaid on its old contents |
| AmSource.AmaltheaDataSupplier.ReceiveAndAccumulate | src/am_source.rs:131-147 | one loop round: the buffer is overlaid with the transfer, the f32 buffer holds its decoding, and each bin adds the power of the samples the whole buffer now decodes to |
| AmSource.AmaltheaDataSupplier.DecodeFrame | src/am_source.rs:134-139 | the f32 buffer is the normalised i16 stream of the byte buffer |
| AmSource.AmaltheaDataSupplier.Accumulate | src/am_source.rs:142-147 | each bin adds the power of the same (re, im) pair |
| AmSource.AmaltheaDataSupplier.Scale | src/am_source.rs:151-153 | the accumulator becomes the mean power |

## Left out

- All OpenGL work is represented only by the pass log. This covers shader and program compilation, texture and framebuffer creation, uniform uploads other than the pass parameters, and draw calls. `set_window_size` is left out because it only forwards the window size to GL.
- `incr_offset`, `incr_max`, `incr_min` are left out: they are f32 gain and offset state that is only forwarded to shaders.
- `src/main.rs` is left out: command-line parsing, the window and event loop, and the key and touch glue.
- f32 rounding is not modelled: normalisation, squaring, summing and the `1/averaging` factor are exact over the reals.
- Debug-build overflow panics are not modelled. Where the source can overflow, the as-written members (`Plot.ScrollLagAsWritten`, `AmSource.RateErrorAsWritten`) follow release-build wrap-around, while the class methods `scroll` and `set_samplerate` are modelled with exact arithmetic (the corrected behaviour; see Findings).
- `averaging == 0` is excluded: both constructors require `averaging >= 1`, since `1/0` in f32 is infinite.
- Spectrum.MagSq: states only that the power is non-negative, not that it is zero exactly for the zero sample.
- Source.DataSupplier.GetBlock: the FFT scratch buffer is not modelled, so its final contents are not stated. The FFT's internals are not modelled: it is a function of the 2048 samples with 2048 outputs.
- Source.DataSupplier.GetBlock: stdin buffering is not modelled. A successful `read_exact` is taken as a frame of exactly 4096 bytes.
- The state after a panic is not described: the process ends there.
- The USB plumbing is left out: context creation, device opening, `claim_interface`, and the timeouts of `read_bulk` and `write_control`. A control write is assumed to succeed.
- AmSource.AmaltheaDataSupplier.SetFrequency: takes the channel word ccf0 as a parameter. The float computation `((freq_mhz - 1500) as f32 / 0.025) as u16` is not modelled. It also underflows u32 below 1500 MHz.
- `set_bandwidth` and `activate` are left out: they only store or print a value, or write fixed registers.
- The `println!` of the chosen sample rate is left out.
- Plot.WaterfallPlot.Scroll: computes the sum exactly (the corrected behaviour). The as-written i32 wrap-around is `Plot.ScrollLagAsWritten`; see Findings.
- AmSource.AmaltheaDataSupplier.SetSamplerate: computes the distance exactly (the corrected behaviour), through `NearestIndex`. The as-written i32 cast is `AmSource.SelectRateAsWritten`; see Findings.
- AmSource.AmaltheaDataSupplier.NearestIndex: the scan uses the exact distance `Dist(samplerate, rate)` instead of `(samplerate as i32 - rate as i32).abs() as u32`; the two agree below 2^31 (`AmSource.SelectRateAsWrittenAgrees`) and differ above it (`AmSource.SelectRateAsWrittenCounterexample`).
- AmSource.AmaltheaDataSupplier.DecodeFrame: the `transmute` of the byte buffer to `[i16; 4096]` reads the host's byte order; the model assumes a little-endian host.

## Findings

| source | as written | input that shows it | evidently intended | confidence | as-written member | corrected member |
|---|---|---|---|---|---|---|
| src/plot.rs:341-344 | `time_position as i32 + val` is summed in i32; in a release build it wraps before the clamp | lag 1, `scroll(2147483647)`: the sum wraps to -2147483648 and the lag becomes 0, so the view jumps to the live edge | the lag saturates at 7167 | not executed; reachable only through very large scroll deltas | Plot.ScrollOverflowCounterexample | Plot.ScrollLag |
| src/am_source.rs:97 | `samplerate as i32` wraps for requests of 2^31 Hz or more | `set_samplerate(4000000000)` selects 400 kHz (index 7) | the nearest entry, 4 MHz (index 0) | not executed | AmSource.SelectRateAsWrittenCounterexample | AmSource.NearestRate |
