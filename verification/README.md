# Jarvis ESP32 self-test: verified model of the integer kernels

The firmware in `src/main.cpp` is a bring-up sketch for an ESP32 board. It joins
Wi-Fi, plays a 1 kHz tone through an I2S amplifier, and then keeps sampling a
stereo I2S microphone and printing per-channel RMS and dBFS levels. Two parts of
it are pure integer logic, and this project models and proves them in Dafny:

- **The microphone level kernel** (`micLevelLoop`, module `MicStats` in
  `mic_stats.dfy`). One driver read fills a 256-word buffer of raw `int32_t`
  words. The kernel derives the word count from the byte count. It returns
  without a report when the read failed or delivered fewer than two words.
  Otherwise it walks the (RIGHT, LEFT) word pairs. Each word is shifted right
  arithmetically by 14 bits and saturated to `int16_t`. The kernel accumulates
  each channel's sum of squares and sample count in 64-bit accumulators. The
  model pairs the C loop (`AccumulateLevels`) with a functional specification
  (`ChannelLevels`): deinterleave, convert each word, then sum the squares.
  It proves that the loop computes exactly that specification.
- **The playback chunk schedule** (`playSine`, module `Playback` in
  `playback.dfy`). A sample counter advances by 256 while it is below the
  requested sample count. Each step fills 256 samples at time indices
  `n + i` and submits them as one 512-byte write. The model proves which
  indices are generated, in what order, how many writes are issued, and how
  far the last chunk runs past the request. It also models the firmware's
  32-bit counter, whose wrap-around is recorded under Findings.

`ints.dfy` (module `Ints`) holds the shared fixed-width vocabulary: the
`int16_t`, `int32_t`, `long long` and `uint32_t` ranges, `>>` on a signed value, and the
`max`/`min` clamp.

Driver calls are abstracted as follows. The read is an input: a success flag,
the 256-word buffer and the byte count delivered. The write is the trace of
`Write` records that `PlaySine` returns.

## Model

| member | source | states |
|---|---|---|
| Ints.Asr | src/main.cpp:123-124 | `x >> k` on a signed word is floor division by 2^k: `r * 2^k <= x < (r + 1) * 2^k` |
| Ints.Clamp | src/main.cpp:125-126 | `max(lo, min(hi, x))` lies in [lo, hi], is x itself when x is already in range, and is lo below the range and hi above it |
| MicStats.ToSample | src/main.cpp:123-126 | each word becomes an int16 sample; inside the representable range the sample is floor(word / 16384), below it -32768, above it 32767 |
| MicStats.ShiftedWordRange | src/main.cpp:123-126 | a shifted int32 word lies in [-131072, 131071]; the extreme words reach both ends, so both saturation branches of the clamp are taken |
| MicStats.Deinterleave | src/main.cpp:122-124 | the word at position 2k goes to RIGHT and the word at 2k+1 to LEFT; both channels get n / 2 words, so a trailing unpaired word is dropped |
| MicStats.DeinterleaveInterleave | src/main.cpp:122-124 | splitting an interleaved RIGHT, LEFT block gives back the two channels |
| MicStats.InterleaveDeinterleave | src/main.cpp:122 | re-interleaving the split channels gives back the block, minus a trailing unpaired word |
| MicStats.SumSquares | src/main.cpp:127-128 | a sum of squared int16 samples is non-negative and at most 32768^2 per sample |
| MicStats.ChannelLevels | src/main.cpp:119-129 | specification of one block: cntL == cntR == n / 2, and each sum lies between 0 and cnt * 32768^2 |
| MicStats.LevelsAppendPair | src/main.cpp:123-128 | one more pair adds its RIGHT sample's square to accR, its LEFT sample's square to accL, and one to each count |
| MicStats.LevelsIgnoreTrailingWord | src/main.cpp:122 | with an odd word count the last word changes neither channel's sum nor count |
| MicStats.LevelsFitInt64 | src/main.cpp:108-128 | with at most 256 words each sum is at most 2^37, inside the signed 64-bit accumulator |
| MicStats.AccumulateLevels | src/main.cpp:119-129 | the C loop over pairs `i + 1 < n` produces exactly the specified sums and counts, each at most 2^37; the accumulators and products are typed as 64-bit `long long`, so every intermediate value is checked to fit |
| MicStats.MicLevel | src/main.cpp:112-129 | a failed read yields no report; fewer than two whole words (fewer than 8 bytes) yields no report; otherwise the report equals the specification of the first readBytes / 4 words, with 1 to 128 pairs per channel |
| Playback.ChunkCount | src/main.cpp:63-67 | the number of chunks is ceil(total / 256): the last chunk ends at or past total but fewer than 256 samples past it |
| Playback.ScheduleContiguous | src/main.cpp:67-69 | all submitted indices, in submission order, are exactly 0, 1, 2, ... up to the end of the last chunk, with no gap or repeat |
| Playback.ScheduleIncreasing | src/main.cpp:67-69 | the submitted indices are strictly increasing |
| Playback.ScheduleCovers | src/main.cpp:63-75 | every index below total is generated, as sample t % 256 of chunk t / 256; the overrun past total is below 256 samples; no write happens exactly when total is 0 |
| Playback.PlaySine | src/main.cpp:63-75 | the corrected loop, with an unbounded counter: the nested loops (the inner one fills the buffer with indices n .. n + 255) issue ceil(total / 256) writes of 512 bytes each, and write k carries indices 256k .. 256k + 255. It matches the firmware exactly when total <= 2^32 - 256 (AsWrittenAgreesBelowBound); above that bound see Findings |
| Playback.StepAsWritten | src/main.cpp:67 | `n += chunk` on a `uint32_t` adds 256 when the sum fits and wraps modulo 2^32 otherwise |
| Playback.CounterAsWrittenAligned | src/main.cpp:67 | the 32-bit counter only ever holds multiples of 256, so it never exceeds 2^32 - 256 |
| Playback.AsWrittenNeverExits | src/main.cpp:66-67 | for total > 2^32 - 256 the 32-bit counter wraps from 2^32 - 256 to 0, and every guard test `n < total` succeeds |
| Playback.AsWrittenAgreesBelowBound | src/main.cpp:66-67 | for total <= 2^32 - 256 the 32-bit counter equals 256k at guard test k, and the guard first fails after exactly ceil(total / 256) chunks |

## Left out

- Wi-Fi association and its 15-second polling loop (`wifiConnect`): network I/O and wall-clock timing.
- I2S driver configuration, pin setup, DMA zeroing and driver uninstall (`i2sBeginTX`, `i2sBeginRX`, the tail of `playSine`): vendor driver calls whose code is not part of this model.
- `i2s_read`: modelled as the inputs of `MicLevel`. These are a success flag, the 256-word buffer and a byte count of at most 1024. The driver promises the byte bound; it never delivers more than it was asked for.
- `i2s_write`: modelled as one `Write` record per call. Its return value and the `written` byte count are ignored by the firmware, and so by the model.
- The sine sample values, and the RMS, dBFS and -120 dB floor of the level meter: single- and double-precision floating point (`sinf`, `sqrt`, `log10f`).
- `waitSeconds` and the conversion `(uint32_t)(seconds * sr)` that yields `total`: float arithmetic. `PlaySine` takes `total` as a `uint32_t` input.
- Playback.PlaySine: this is the corrected loop, and its counter is an unbounded integer, not the firmware's `uint32_t`. It matches the firmware exactly when total <= 2^32 - 256, because the 32-bit counter then never wraps (`AsWrittenAgreesBelowBound`). Above that bound the firmware's counter wraps and its loop never exits, while `PlaySine` stops after ceil(total / 256) writes; see Findings. Whenever the firmware's guard holds, its counter is at most 2^32 - 256 (`CounterAsWrittenAligned`), so the 32-bit sample index `n + i` never wraps.
- Serial printing, `setup`/`loop` sequencing and the 200 ms delay between meter passes: diagnostics and Arduino runtime plumbing.

## Findings

| source | as written | input that shows it | evidently intended | confidence | as-written member | corrected member |
|---|---|---|---|---|---|---|
| src/main.cpp:67 | the sample counter `n` is a `uint32_t` and `n += chunk` wraps modulo 2^32, so when total > 2^32 - 256 the counter goes from 2^32 - 256 back to 0 and `n < total` never fails | total = 2^32 - 1 (any total above 2^32 - 256). The only call in the firmware asks for 2 s at 44100 Hz (total = 88200), far below this bound. The firmware computes total as `(uint32_t)(seconds * sr)` in single precision; the largest float below 2^32 is exactly 2^32 - 256, so that conversion cannot yield such a total without an out-of-range conversion, which C leaves undefined. The defect is in the loop when it is called with such a total | the loop stops after ceil(total / 256) chunks for every `uint32_t` total, as it does for totals up to 2^32 - 256 | not executed; follows from the wrap-around of unsigned 32-bit arithmetic | Playback.AsWrittenNeverExits | Playback.PlaySine |
