/**
 The integer skeleton of the tone player. A sample counter n starts at 0 and,
 while it is below the requested number of samples `total`, fills one whole
 chunk of CHUNK samples, sample i of the chunk being evaluated at time index
 n + i, submits the chunk to the driver as one write of CHUNK * 2 bytes, and
 advances n by CHUNK. The sample values themselves are single-precision sine
 evaluations and are not part of this model: a write is described by the time
 indices of its samples and its byte count.
 */
module Playback {
  import opened Ints

  /** Samples per buffer and per write. */
  const CHUNK: nat := 256
  /** `sizeof(int16_t)`. */
  const SAMPLE_BYTES: nat := 2

  /** One call of the driver's write: the time indices of the samples in the
      buffer, in buffer order, and the number of bytes submitted. */
  datatype Write = Write(indices: seq<nat>, bytes: nat)

  /** The number of chunks the player emits for `total` samples: the least c
      with c * CHUNK >= total, that is ceil(total / CHUNK). */
  function ChunkCount(total: nat): (c: nat)
    ensures c * CHUNK >= total
    ensures c == 0 || (c - 1) * CHUNK < total
    ensures 0 <= c * CHUNK - total < CHUNK
  {
    (total + CHUNK - 1) / CHUNK
  }

  /** The time indices of the chunk that starts at `start`. */
  function ChunkIndices(start: nat): (r: seq<nat>)
    ensures |r| == CHUNK
    ensures forall i :: 0 <= i < CHUNK ==> r[i] == start + i
  {
    seq(CHUNK, i requires 0 <= i < CHUNK => start + i)
  }

  /** Reference definition of the writes issued for `total` samples: chunk k
      starts at k * CHUNK and every write carries a full buffer. */
  function Schedule(total: nat): (trace: seq<Write>)
  {
    seq(ChunkCount(total), k requires 0 <= k => Write(ChunkIndices(k * CHUNK), CHUNK * SAMPLE_BYTES))
  }

  /** All sample indices of a trace, in the order they were submitted. */
  function Flatten(trace: seq<Write>): (indices: seq<nat>)
  {
    if |trace| == 0 then [] else Flatten(trace[..|trace| - 1]) + trace[|trace| - 1].indices
  }

  /** 0, 1, ..., n - 1. */
  function Range(n: nat): (r: seq<nat>)
    ensures |r| == n
    ensures forall j :: 0 <= j < n ==> r[j] == j
  {
    seq(n, j requires 0 <= j => j)
  }

  lemma {:induction false} FlattenSchedulePrefix(total: nat, m: nat)
    requires m <= ChunkCount(total)
    ensures Flatten(Schedule(total)[..m]) == Range(m * CHUNK)
  {
    if m > 0 {
      var s := Schedule(total);
      FlattenSchedulePrefix(total, m - 1);
      assert s[..m][..m - 1] == s[..m - 1];
      assert Flatten(s[..m]) == Range((m - 1) * CHUNK) + ChunkIndices((m - 1) * CHUNK);
    }
  }

  /** The submitted indices are exactly 0, 1, 2, ... up to the end of the last
      chunk: consecutive chunks continue where the previous one stopped, with
      no gap and no repeat. */
  lemma ScheduleContiguous(total: nat)
    ensures Flatten(Schedule(total)) == Range(ChunkCount(total) * CHUNK)
  {
    FlattenSchedulePrefix(total, ChunkCount(total));
    assert Schedule(total)[..ChunkCount(total)] == Schedule(total);
  }

  /** The submitted indices are strictly increasing. */
  lemma ScheduleIncreasing(total: nat)
    ensures var f := Flatten(Schedule(total));
            forall a, b :: 0 <= a < b < |f| ==> f[a] < f[b]
  {
    ScheduleContiguous(total);
  }

  /** Every index below `total` is generated, as sample t % CHUNK of chunk
      t / CHUNK; the last chunk runs at most CHUNK - 1 samples past `total`;
      and an empty request issues no write at all. */
  lemma ScheduleCovers(total: nat)
    ensures forall t :: 0 <= t < total ==>
              t / CHUNK < |Schedule(total)| && Schedule(total)[t / CHUNK].indices[t % CHUNK] == t
    ensures total <= |Schedule(total)| * CHUNK < total + CHUNK
    ensures Schedule(total) == [] <==> total == 0
  {
    forall t | 0 <= t < total
      ensures t / CHUNK < |Schedule(total)|
    {
      assert (t / CHUNK) * CHUNK <= t;
    }
  }

  /** The player's nested loops with an unbounded counter: the corrected loop.
      It matches the firmware's 32-bit counter exactly when total <= 2^32 - CHUNK
      (AsWrittenAgreesBelowBound); above that bound the firmware's loop does not
      terminate (AsWrittenNeverExits). Exactly ceil(total / CHUNK) writes of
      CHUNK * SAMPLE_BYTES bytes are issued, and write k carries the indices
      k * CHUNK .. k * CHUNK + CHUNK - 1. */
  method PlaySine(total: UInt32) returns (trace: seq<Write>)
    ensures |trace| == ChunkCount(total)
    ensures forall k :: 0 <= k < |trace| ==>
              trace[k].bytes == CHUNK * SAMPLE_BYTES && trace[k].indices == ChunkIndices(k * CHUNK)
    ensures trace == Schedule(total)
  {
    trace := [];
    var n: nat := 0;
    while n < total
      invariant n == |trace| * CHUNK
      invariant |trace| <= ChunkCount(total)
      invariant trace == Schedule(total)[..|trace|]
      decreases total - n
    {
      var buf: seq<nat> := [];
      var i: nat := 0;
      while i < CHUNK
        invariant i <= CHUNK
        invariant |buf| == i
        invariant forall j :: 0 <= j < i ==> buf[j] == n + j
      {
        buf := buf + [n + i];
        i := i + 1;
      }
      assert buf == ChunkIndices(n);
      trace := trace + [Write(buf, CHUNK * SAMPLE_BYTES)];
      n := n + CHUNK;
    }
  }

  /** `n += chunk` on the firmware's `uint32_t` counter: the sum wraps
      modulo 2^32. */
  function StepAsWritten(n: UInt32): (m: UInt32)
    ensures n + CHUNK < UINT32_MODULUS ==> m == n + CHUNK
    ensures n + CHUNK >= UINT32_MODULUS ==> m == n + CHUNK - UINT32_MODULUS
  {
    (n + CHUNK) % UINT32_MODULUS
  }

  /** The firmware's counter at the k-th test of the loop guard. */
  function CounterAsWritten(k: nat): (n: UInt32)
  {
    if k == 0 then 0 else StepAsWritten(CounterAsWritten(k - 1))
  }

  /** The 32-bit counter only ever holds multiples of CHUNK, so it never
      exceeds 2^32 - CHUNK. */
  lemma {:induction false} CounterAsWrittenAligned(k: nat)
    ensures CounterAsWritten(k) % CHUNK == 0
    ensures CounterAsWritten(k) <= UINT32_MODULUS - CHUNK
  {
    if k > 0 {
      CounterAsWrittenAligned(k - 1);
    }
  }

  /** With a request above 2^32 - CHUNK samples the 32-bit counter wraps from
      2^32 - CHUNK back to 0 and every test of the guard `n < total` succeeds:
      the firmware's loop never terminates. */
  lemma AsWrittenNeverExits(total: UInt32, k: nat)
    requires UINT32_MODULUS - CHUNK < total
    ensures CounterAsWritten(k) < total
    ensures StepAsWritten(UINT32_MODULUS - CHUNK) == 0
  {
    CounterAsWrittenAligned(k);
  }

  /** Up to 2^32 - CHUNK samples the 32-bit counter never wraps: it agrees with
      the unbounded counter of PlaySine, and the guard first fails after
      exactly ChunkCount(total) chunks. */
  lemma {:induction false} AsWrittenAgreesBelowBound(total: UInt32, k: nat)
    requires total <= UINT32_MODULUS - CHUNK
    requires k <= ChunkCount(total)
    ensures CounterAsWritten(k) == k * CHUNK
    ensures CounterAsWritten(k) < total <==> k < ChunkCount(total)
  {
    if k > 0 {
      AsWrittenAgreesBelowBound(total, k - 1);
    }
  }
}
