/**
 The integer kernel of the microphone level meter. One I2S read delivers a
 block of raw 32-bit words, interleaved RIGHT, LEFT, RIGHT, LEFT, ...; each
 word is shifted right by 14 bits and saturated to a 16-bit sample, and the
 meter keeps, per channel, the sum of the squared samples and their count
 in 64-bit accumulators. The RMS and dBFS figures printed from these
 accumulators are floating point and are not part of this model.
 */
module MicStats {
  import opened Ints

  /** Words requested from the driver per read: the length of the buffer. */
  const CHUNK_WORDS: nat := 256
  /** `sizeof(int32_t)`. */
  const WORD_BYTES: nat := 4
  const SAMPLE_SHIFT: nat := 14
  /** 2^SAMPLE_SHIFT. */
  const SAMPLE_SCALE: int := 16384
  /** (-32768)^2, the largest square of a 16-bit sample. */
  const MAX_SQUARE: int := 0x4000_0000

  /** The two channels of an interleaved block. */
  datatype Channels = Channels(right: seq<Int32>, left: seq<Int32>)

  /** The per-channel accumulators after one block. */
  datatype Levels = Levels(accL: int, accR: int, cntL: nat, cntR: nat)

  /** What one pass of the level meter produces: nothing when the read failed
      or delivered fewer than two whole words, the accumulators otherwise. */
  datatype Reading = ReadFailed | TooFewWords | Measured(levels: Levels)

  lemma ScaleIsPow2()
    ensures Pow2(SAMPLE_SHIFT) == SAMPLE_SCALE
  {
  }

  /** One raw word as a 16-bit sample: arithmetic shift right by 14, then
      saturation to the int16 range. Inside the representable range the sample
      is the floor of word / 2^14; below it the sample pins at -32768, above it
      at 32767. */
  function ToSample(w: Int32): (s: Int16)
    ensures (INT16_MIN * SAMPLE_SCALE <= w < (INT16_MAX + 1) * SAMPLE_SCALE) ==>
              s * SAMPLE_SCALE <= w < (s + 1) * SAMPLE_SCALE
    ensures w < INT16_MIN * SAMPLE_SCALE ==> s == INT16_MIN
    ensures (INT16_MAX + 1) * SAMPLE_SCALE <= w ==> s == INT16_MAX
  {
    ScaleIsPow2();
    Clamp(Asr(w, SAMPLE_SHIFT), INT16_MIN, INT16_MAX)
  }

  /** The shift maps the int32 range onto [-131072, 131071], which is wider
      than the int16 range, so both saturation branches are reachable: the
      extreme words shift to the extremes and are pinned by the clamp. */
  lemma ShiftedWordRange(w: Int32)
    ensures -131072 <= Asr(w, SAMPLE_SHIFT) <= 131071
    ensures Asr(INT32_MAX, SAMPLE_SHIFT) == 131071 && ToSample(INT32_MAX) == INT16_MAX
    ensures Asr(INT32_MIN, SAMPLE_SHIFT) == -131072 && ToSample(INT32_MIN) == INT16_MIN
  {
    ScaleIsPow2();
  }

  /** Splits an interleaved block into its channels: even positions are RIGHT,
      odd positions LEFT, and a trailing unpaired word belongs to neither. */
  function Deinterleave(ws: seq<Int32>): (ch: Channels)
    ensures |ch.right| == |ch.left| == |ws| / 2
    ensures forall k :: 0 <= k < |ws| / 2 ==> ch.right[k] == ws[2 * k]
    ensures forall k :: 0 <= k < |ws| / 2 ==> ch.left[k] == ws[2 * k + 1]
  {
    if |ws| < 2 then Channels([], [])
    else
      var rest := Deinterleave(ws[2..]);
      Channels([ws[0]] + rest.right, [ws[1]] + rest.left)
  }

  /** The inverse of Deinterleave: a RIGHT, LEFT, RIGHT, LEFT, ... block. */
  function Interleave(ch: Channels): (ws: seq<Int32>)
    requires |ch.right| == |ch.left|
    ensures |ws| == 2 * |ch.right|
    decreases |ch.right|
  {
    if |ch.right| == 0 then []
    else [ch.right[0], ch.left[0]] + Interleave(Channels(ch.right[1..], ch.left[1..]))
  }

  /** Splitting an interleaved pair of channels gives the channels back. */
  lemma {:induction false} DeinterleaveInterleave(ch: Channels)
    requires |ch.right| == |ch.left|
    ensures Deinterleave(Interleave(ch)) == ch
    decreases |ch.right|
  {
    if |ch.right| > 0 {
      var tail := Channels(ch.right[1..], ch.left[1..]);
      var ws := Interleave(ch);
      assert ws == [ch.right[0], ch.left[0]] + Interleave(tail);
      assert ws[2..] == Interleave(tail);
      DeinterleaveInterleave(tail);
      var d := Deinterleave(ws);
      assert d.right == [ch.right[0]] + tail.right == ch.right;
      assert d.left == [ch.left[0]] + tail.left == ch.left;
    }
  }

  /** Re-interleaving the split channels gives the block back without its
      trailing unpaired word, if it had one. */
  lemma {:induction false} InterleaveDeinterleave(ws: seq<Int32>)
    ensures Interleave(Deinterleave(ws)) == ws[..|ws| / 2 * 2]
    decreases |ws|
  {
    if |ws| >= 2 {
      InterleaveDeinterleave(ws[2..]);
      assert ws[2..][..|ws[2..]| / 2 * 2] == ws[2..|ws| / 2 * 2];
      var ch := Deinterleave(ws);
      assert ch.right[1..] == Deinterleave(ws[2..]).right;
      assert ch.left[1..] == Deinterleave(ws[2..]).left;
    }
  }

  /** Every word of a channel as a 16-bit sample. */
  function Samples(ws: seq<Int32>): (ss: seq<Int16>)
    ensures |ss| == |ws|
  {
    seq(|ws|, k requires 0 <= k < |ws| => ToSample(ws[k]))
  }

  lemma MulLe(a: int, b: int, c: int)
    requires 0 <= a <= b && 0 <= c
    ensures 0 <= a * c <= b * c
  {
  }

  lemma SquareBound(x: Int16)
    ensures 0 <= x * x <= MAX_SQUARE
  {
    var y: int := if x >= 0 then x else -(x as int);
    assert x * x == y * y;
    MulLe(y, 32768, y);
    MulLe(y, 32768, 32768);
  }

  /** The sum of the squares of the samples: never negative, and at most
      MAX_SQUARE per sample. */
  function SumSquares(s: seq<Int16>): (r: int)
    ensures 0 <= r <= |s| * MAX_SQUARE
  {
    if |s| == 0 then 0
    else
      SquareBound(s[0]);
      s[0] * s[0] + SumSquares(s[1..])
  }

  lemma {:induction false} SumSquaresAppend(s: seq<Int16>, x: Int16)
    ensures SumSquares(s + [x]) == SumSquares(s) + x * x
  {
    if |s| > 0 {
      assert (s + [x])[1..] == s[1..] + [x];
      SumSquaresAppend(s[1..], x);
    }
  }

  /** The functional specification of the meter on a block of words: split the
      block into channels, convert each word to a sample, and sum the squares.
      The two counts are equal and are the number of whole pairs, and each sum
      lies between 0 and count * 32768^2. */
  function ChannelLevels(ws: seq<Int32>): (lv: Levels)
    ensures lv.cntL == lv.cntR == |ws| / 2
    ensures 0 <= lv.accL <= lv.cntL * MAX_SQUARE
    ensures 0 <= lv.accR <= lv.cntR * MAX_SQUARE
  {
    var ch := Deinterleave(ws);
    Levels(SumSquares(Samples(ch.left)), SumSquares(Samples(ch.right)), |ch.left|, |ch.right|)
  }

  /** One more (RIGHT, LEFT) pair adds the square of its RIGHT sample to accR,
      the square of its LEFT sample to accL, and one to each count: the step
      the meter's loop takes from the pairs before position i to those before
      position i + 2. */
  lemma LevelsAppendPair(ws: seq<Int32>, i: nat)
    requires i % 2 == 0 && i + 1 < |ws|
    ensures var before := ChannelLevels(ws[..i]);
            var sr := ToSample(ws[i]);
            var sl := ToSample(ws[i + 1]);
            ChannelLevels(ws[..i + 2])
              == Levels(before.accL + sl * sl, before.accR + sr * sr, before.cntL + 1, before.cntR + 1)
  {
    var ch := Deinterleave(ws[..i]);
    var ch' := Deinterleave(ws[..i + 2]);
    assert ch'.right == ch.right + [ws[i]];
    assert ch'.left == ch.left + [ws[i + 1]];
    assert Samples(ch'.right) == Samples(ch.right) + [ToSample(ws[i])];
    assert Samples(ch'.left) == Samples(ch.left) + [ToSample(ws[i + 1])];
    SumSquaresAppend(Samples(ch.right), ToSample(ws[i]));
    SumSquaresAppend(Samples(ch.left), ToSample(ws[i + 1]));
  }

  /** A trailing unpaired word does not contribute to either channel. */
  lemma LevelsIgnoreTrailingWord(ws: seq<Int32>)
    requires |ws| % 2 == 1
    ensures ChannelLevels(ws) == ChannelLevels(ws[..|ws| - 1])
  {
    var ch := Deinterleave(ws);
    var ch' := Deinterleave(ws[..|ws| - 1]);
    assert ch.right == ch'.right;
    assert ch.left == ch'.left;
  }

  /** A block of at most CHUNK_WORDS words has at most 128 pairs, so each sum
      stays at or below 128 * 2^30 = 2^37, far inside a signed 64-bit `long long`. */
  lemma LevelsFitInt64(ws: seq<Int32>)
    requires |ws| <= CHUNK_WORDS
    ensures ChannelLevels(ws).accL <= 0x20_0000_0000 <= INT64_MAX
    ensures ChannelLevels(ws).accR <= 0x20_0000_0000 <= INT64_MAX
  {
  }

  /** The meter's loop over the words of one read: walks the pairs
      (words[i], words[i + 1]) while i + 1 < n, shifting, clamping and
      accumulating. The accumulators are `long long`, so every product and
      every intermediate sum is checked to fit in 64 bits. */
  method AccumulateLevels(words: seq<Int32>) returns (lv: Levels)
    requires |words| <= CHUNK_WORDS
    ensures lv == ChannelLevels(words)
    ensures lv.accL <= 0x20_0000_0000 && lv.accR <= 0x20_0000_0000
  {
    var accL: Int64, accR: Int64 := 0, 0;
    var cntL, cntR := 0, 0;
    var i := 0;
    while i + 1 < |words|
      invariant i % 2 == 0 && i <= |words|
      invariant Levels(accL, accR, cntL, cntR) == ChannelLevels(words[..i])
    {
      var r32 := Asr(words[i], SAMPLE_SHIFT);
      var l32 := Asr(words[i + 1], SAMPLE_SHIFT);
      var r16: Int16 := Clamp(r32, INT16_MIN, INT16_MAX);
      var l16: Int16 := Clamp(l32, INT16_MIN, INT16_MAX);
      assert 0 <= r16 * r16 <= MAX_SQUARE && 0 <= l16 * l16 <= MAX_SQUARE by {
        SquareBound(r16);
        SquareBound(l16);
      }
      var sqR: Int64, sqL: Int64 := r16 * r16, l16 * l16;
      LevelsAppendPair(words, i);
      accR, cntR := accR + sqR, cntR + 1;
      accL, cntL := accL + sqL, cntL + 1;
      i := i + 2;
    }
    if i < |words| {
      LevelsIgnoreTrailingWord(words);
      assert words[..i] == words[..|words| - 1];
    } else {
      assert words[..i] == words;
    }
    lv := Levels(accL, accR, cntL, cntR);
  }

  /** One pass of the level meter. `readOk` is whether the driver's read
      succeeded and `readBytes` how many bytes it delivered into `buf`; the
      driver never delivers more than the CHUNK_WORDS * WORD_BYTES requested.
      A partial word at the end of the delivered bytes is not counted. */
  method MicLevel(readOk: bool, buf: seq<Int32>, readBytes: nat) returns (r: Reading)
    requires |buf| == CHUNK_WORDS
    requires readBytes <= CHUNK_WORDS * WORD_BYTES
    ensures r == ReadFailed <==> !readOk
    ensures r == TooFewWords <==> readOk && readBytes < 2 * WORD_BYTES
    ensures r.Measured? ==> r.levels == ChannelLevels(buf[..readBytes / WORD_BYTES])
    ensures r.Measured? ==> 1 <= r.levels.cntL == r.levels.cntR <= CHUNK_WORDS / 2
  {
    if !readOk {
      return ReadFailed;
    }
    var n := readBytes / WORD_BYTES;
    if n < 2 {
      return TooFewWords;
    }
    var lv := AccumulateLevels(buf[..n]);
    r := Measured(lv);
  }
}
