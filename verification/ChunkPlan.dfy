/** How csrc/cumem_allocator.cpp (ROCm) splits an allocation into chunks, in
    64-bit unsigned arithmetic. */
module ChunkPlan {

  import Division

  const WRAP := 0x1_0000_0000_0000_0000
  const MB := 1024 * 1024
  const DEFAULT_CHUNK := 256 * MB

  /** VLLM_ROCM_SLEEP_MEM_CHUNK_SIZE as strtoull sees it: no variable, no number
      or one out of range, or a number of megabytes. */
  datatype Setting = Unset | NotANumber | Megabytes(mb: nat)

  /** get_memcreate_chunk_size: the default stands in for anything unusable. */
  function BaseChunk(env: Setting): (size: nat)
    ensures 0 < size < WRAP && size % MB == 0
    ensures env.Megabytes? && 0 < env.mb && env.mb * MB < WRAP ==> size == env.mb * MB
  {
    if !env.Megabytes? || env.mb == 0 || env.mb > (WRAP - 1) / MB then DEFAULT_CHUNK else env.mb * MB
  }

  /** ((x + granularity - 1) / granularity) * granularity, modulo 2^64. */
  function RoundUp(x: nat, g: nat): int
    requires g > 0
  {
    (x + g - 1) % WRAP / g * g
  }

  /** Rounding up does round up, to the next multiple, exactly when the sum stays
      within 64 bits; otherwise it gives 0. */
  lemma RoundUpIff(x: nat, g: nat)
    requires 0 < g < WRAP && x < WRAP
    ensures 0 <= RoundUp(x, g) && RoundUp(x, g) % g == 0
    ensures x <= RoundUp(x, g) <==> x + g - 1 < WRAP
    ensures x + g - 1 < WRAP ==> RoundUp(x, g) < x + g && RoundUp(x, g) < WRAP
    ensures x + g - 1 >= WRAP ==> RoundUp(x, g) == 0
  {
    var sum := (x + g - 1) % WRAP;
    Division.Bounds(sum, g);
    Division.NonNegative(sum, g);
    if x + g - 1 >= WRAP {
      assert sum == x + g - 1 - WRAP;
      Division.Quotient(0, g, sum);
    }
  }

  /** (size + chunk - 1) / chunk, modulo 2^64. */
  function NumChunks(size: nat, chunk: nat): (n: nat)
    requires chunk > 0
  {
    (size + chunk - 1) % WRAP / chunk
  }

  /** chunk_sizes[i]: what is left, but at most one chunk; modulo 2^64. */
  function ChunkSize(size: nat, chunk: nat, i: nat): nat {
    var left := (size - i * chunk) % WRAP;
    if left < chunk then left else chunk
  }

  function ChunkSizes(size: nat, chunk: nat): (sizes: seq<nat>)
    requires chunk > 0
    ensures |sizes| == NumChunks(size, chunk)
  {
    seq(NumChunks(size, chunk), i requires 0 <= i => ChunkSize(size, chunk, i))
  }

  function Sum(sizes: seq<nat>): nat {
    if sizes == [] then 0 else Sum(sizes[..|sizes| - 1]) + sizes[|sizes| - 1]
  }

  // ------------------------------------------------------------ the tiling

  /** Without overflow, all chunks but the last start at least one chunk before
      the end, and the last one ends at it: the subtraction never underflows. */
  lemma ChunkCount(size: nat, chunk: nat)
    requires 0 < chunk < WRAP && size < WRAP && size + chunk - 1 < WRAP
    ensures var n := NumChunks(size, chunk);
            && (size == 0 <==> n == 0)
            && n * chunk < size + chunk && (n > 0 ==> (n - 1) * chunk < size <= n * chunk)
  {
    var n := NumChunks(size, chunk);
    Division.Bounds(size + chunk - 1, chunk);
    assert (n - 1) * chunk == n * chunk - chunk;
    if n == 0 {
      assert n * chunk == 0;
    }
  }

  /** What is left before chunk `i`. */
  lemma LeftBefore(size: nat, chunk: nat, i: nat)
    requires 0 < chunk < WRAP && size < WRAP && size + chunk - 1 < WRAP && i < NumChunks(size, chunk)
    ensures 0 < size - i * chunk < WRAP
    ensures i < NumChunks(size, chunk) - 1 ==> size - i * chunk > chunk
    ensures i == NumChunks(size, chunk) - 1 ==> size - i * chunk <= chunk
  {
    var n := NumChunks(size, chunk);
    ChunkCount(size, chunk);
    assert (n - 1) * chunk == i * chunk + (n - 1 - i) * chunk;
    assert n * chunk == (n - 1) * chunk + chunk;
    if i < n - 1 {
      Division.AtLeastOnce(n - 1 - i, chunk);
    }
    assert i * chunk >= 0;
  }

  /** Every chunk has the full size but the last, which has the rest. */
  lemma ChunkSizeIs(size: nat, chunk: nat, i: nat)
    requires 0 < chunk < WRAP && size < WRAP && size + chunk - 1 < WRAP && i < NumChunks(size, chunk)
    ensures ChunkSize(size, chunk, i) == if i < NumChunks(size, chunk) - 1 then chunk else size - i * chunk
    ensures ChunkSize(size, chunk, i) > 0
  {
    LeftBefore(size, chunk, i);
  }

  lemma {:induction false} PartialSum(size: nat, chunk: nat, i: nat)
    requires 0 < chunk < WRAP && size < WRAP && size + chunk - 1 < WRAP && i <= NumChunks(size, chunk)
    ensures Sum(ChunkSizes(size, chunk)[..i]) == if i < NumChunks(size, chunk) then i * chunk else size
  {
    if i == 0 {
      ChunkCount(size, chunk);
    } else {
      PartialSum(size, chunk, i - 1);
      SumSnoc(ChunkSizes(size, chunk), i - 1);
      ChunkSizeIs(size, chunk, i - 1);
      OneMore(i, chunk);
    }
  }

  lemma SumSnoc(sizes: seq<nat>, i: nat)
    requires i < |sizes|
    ensures Sum(sizes[..i + 1]) == Sum(sizes[..i]) + sizes[i]
  {
    assert sizes[..i + 1][..i] == sizes[..i];
  }

  lemma OneMore(i: int, chunk: int)
    ensures (i - 1) * chunk + chunk == i * chunk
  {
  }

  /** The chunk sizes tile the allocation: positive, multiples of the granularity,
      all of one size but perhaps a smaller last one, adding up to the whole. */
  lemma ChunksTile(size: nat, chunk: nat, g: nat)
    requires 0 < chunk < WRAP && size < WRAP && size + chunk - 1 < WRAP
    requires g > 0 && size % g == 0 && chunk % g == 0
    ensures Sum(ChunkSizes(size, chunk)) == size
    ensures forall i :: 0 <= i < |ChunkSizes(size, chunk)| ==>
              && 0 < ChunkSizes(size, chunk)[i] <= chunk && ChunkSizes(size, chunk)[i] % g == 0
              && (i < |ChunkSizes(size, chunk)| - 1 ==> ChunkSizes(size, chunk)[i] == chunk)
  {
    var sizes := ChunkSizes(size, chunk);
    PartialSum(size, chunk, |sizes|);
    assert sizes[..|sizes|] == sizes;
    forall i | 0 <= i < |sizes|
      ensures 0 < sizes[i] <= chunk && sizes[i] % g == 0 && (i < |sizes| - 1 ==> sizes[i] == chunk)
    {
      ChunkSizeIs(size, chunk, i);
      LeftBefore(size, chunk, i);
      RestIsMultiple(size, chunk, i, g);
    }
  }

  lemma RestIsMultiple(size: nat, chunk: nat, i: nat, g: nat)
    requires g > 0 && size % g == 0 && chunk % g == 0
    ensures (size - i * chunk) % g == 0
  {
    var a, b := size / g, chunk / g;
    assert size == a * g && chunk == b * g;
    assert i * chunk == (i * b) * g;
    assert size - i * chunk == (a - i * b) * g;
    Division.Quotient(a - i * b, g, 0);
  }

  /** When the count overflows it comes out as 0: the plan covers the allocation
      exactly when size plus chunk stays within 64 bits, and is empty otherwise. */
  lemma ChunksCoverIff(size: nat, chunk: nat)
    requires 0 < chunk < WRAP && size < WRAP
    ensures Sum(ChunkSizes(size, chunk)) == size <==> size + chunk - 1 < WRAP
    ensures size + chunk - 1 >= WRAP ==> ChunkSizes(size, chunk) == []
  {
    var sizes := ChunkSizes(size, chunk);
    if size + chunk - 1 < WRAP {
      PartialSum(size, chunk, |sizes|);
      assert sizes[..|sizes|] == sizes;
    } else {
      var wrapped := size + chunk - 1 - WRAP;
      assert (size + chunk - 1) % WRAP == wrapped;
      Division.Quotient(0, chunk, wrapped);
    }
  }

  /** A setting just below the limit: 4 MB are requested, and no chunk is made. */
  lemma HugeChunkCoversNothing()
    ensures var g, chunk := 2 * MB, RoundUp(BaseChunk(Megabytes(17592186044414)), 2 * MB);
            && 0 < chunk < WRAP && RoundUp(4 * MB, g) == 4 * MB
            && ChunkSizes(4 * MB, chunk) == [] && Sum(ChunkSizes(4 * MB, chunk)) != 4 * MB
  {
    ChunksCoverIff(4 * MB, RoundUp(BaseChunk(Megabytes(17592186044414)), 2 * MB));
  }

  /** The largest setting: rounding it up gives 0, by which the plan divides. */
  lemma LargestChunkRoundsToZero()
    ensures BaseChunk(Megabytes(17592186044415)) + 2 * MB - 1 >= WRAP
    ensures RoundUp(BaseChunk(Megabytes(17592186044415)), 2 * MB) == 0
  {
    RoundUpIff(BaseChunk(Megabytes(17592186044415)), 2 * MB);
  }

  /** Overflow or not, the chunks are positive and never reach past the end. */
  lemma ChunksFit(size: nat, chunk: nat)
    requires 0 < chunk < WRAP && size < WRAP
    ensures Sum(ChunkSizes(size, chunk)) <= size
    ensures forall i :: 0 <= i < |ChunkSizes(size, chunk)| ==> 0 < ChunkSizes(size, chunk)[i] <= chunk
  {
    var sizes := ChunkSizes(size, chunk);
    ChunksCoverIff(size, chunk);
    if size + chunk - 1 < WRAP {
      forall i | 0 <= i < |sizes| ensures 0 < sizes[i] <= chunk {
        ChunkSizeIs(size, chunk, i);
        LeftBefore(size, chunk, i);
      }
    }
  }

  // -------------------------------------------------------------- the loop

  /** A plan, or the division by zero that a chunk size of zero leads to. */
  datatype Plan = DivideByZero | Plan(size: nat, sizes: seq<nat>)

  /** The sizing part of my_malloc: round both sizes up, count the chunks, fill
      in their sizes. It fails exactly when rounding up the configured chunk
      leaves 64 bits. */
  method PlanChunks(requested: nat, granularity: nat, env: Setting) returns (plan: Plan)
    requires requested < WRAP && 0 < granularity < WRAP
    ensures plan.DivideByZero? <==> BaseChunk(env) + granularity - 1 >= WRAP
    ensures plan.Plan? ==> plan.size == RoundUp(requested, granularity)
    ensures plan.Plan? ==>
              var chunk := RoundUp(BaseChunk(env), granularity);
              chunk > 0 && plan.sizes == ChunkSizes(plan.size, chunk)
  {
    RoundUpIff(requested, granularity);
    RoundUpIff(BaseChunk(env), granularity);
    var alignedSize: nat := RoundUp(requested, granularity);
    var alignedChunk: nat := RoundUp(BaseChunk(env), granularity);
    if alignedChunk == 0 {
      return DivideByZero;
    }
    var numChunks := NumChunks(alignedSize, alignedChunk);
    var chunkSizes := new nat[numChunks];
    for i := 0 to numChunks
      invariant forall k :: 0 <= k < i ==> chunkSizes[k] == ChunkSize(alignedSize, alignedChunk, k)
    {
      var left := (alignedSize - i * alignedChunk) % WRAP;
      chunkSizes[i] := if left < alignedChunk then left else alignedChunk;
    }
    assert chunkSizes[..] == ChunkSizes(alignedSize, alignedChunk);
    plan := Plan(alignedSize, chunkSizes[..]);
  }

  /** The plan for any request that stays within 64 bits tiles the aligned size. */
  lemma PlanTiles(requested: nat, granularity: nat, env: Setting)
    requires requested < WRAP && 0 < granularity < WRAP
    requires requested + granularity - 1 < WRAP && BaseChunk(env) + granularity - 1 < WRAP
    requires RoundUp(requested, granularity) + RoundUp(BaseChunk(env), granularity) - 1 < WRAP
    ensures var size, chunk := RoundUp(requested, granularity), RoundUp(BaseChunk(env), granularity);
            && chunk > 0 && requested <= size < requested + granularity
            && Sum(ChunkSizes(size, chunk)) == size
            && forall i :: 0 <= i < |ChunkSizes(size, chunk)| ==>
                 0 < ChunkSizes(size, chunk)[i] <= chunk && ChunkSizes(size, chunk)[i] % granularity == 0
  {
    RoundUpIff(requested, granularity);
    RoundUpIff(BaseChunk(env), granularity);
    ChunksTile(RoundUp(requested, granularity), RoundUp(BaseChunk(env), granularity), granularity);
  }
}
