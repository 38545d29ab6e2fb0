/** Prefix caching in the selective scan: a state stored at a chunk end stands
    for the whole prefix, so a request resumed from it computes what a scan from
    the start computes. */
module PrefixCache {

  import opened ScanRecurrence
  import opened ScanKernel

  // ------------------------------------------------------ chunk boundaries

  /** The first chunk of sequence `batch` follows the last of the one before. The
      last chunk of a sequence without chunks is the one before its first, which is
      -1 at the front. */
  function FirstChunk(lastChunk: seq<int>, batch: nat): int
    requires batch < |lastChunk|
  {
    if batch == 0 then 0 else lastChunk[batch - 1] + 1
  }

  ghost predicate ChunkTable(cuChunk: seq<nat>, lastChunk: seq<int>)
  {
    && (forall i, j :: 0 <= i <= j < |cuChunk| ==> cuChunk[i] <= cuChunk[j])
    && (forall b {:trigger FirstChunk(lastChunk, b)} :: 0 <= b < |lastChunk| ==>
          0 <= FirstChunk(lastChunk, b) <= lastChunk[b] + 1 < |cuChunk|)
  }

  /** The token counts of the chunks of one sequence. */
  function ChunksOf(cuChunk: seq<nat>, lastChunk: seq<int>, batch: nat): seq<nat>
    requires ChunkTable(cuChunk, lastChunk) && batch < |lastChunk|
  {
    var first := FirstChunk(lastChunk, batch);
    seq(lastChunk[batch] + 1 - first, c requires 0 <= c < lastChunk[batch] + 1 - first =>
      cuChunk[first + c + 1] - cuChunk[first + c])
  }

  /** The first `n` chunks of a sequence cover its stretch of tokens up to the
      n-th boundary. */
  lemma {:induction false} ChunksUpTo(cuChunk: seq<nat>, lastChunk: seq<int>, batch: nat, n: nat)
    requires ChunkTable(cuChunk, lastChunk) && batch < |lastChunk|
    requires n <= |ChunksOf(cuChunk, lastChunk, batch)|
    ensures var first := FirstChunk(lastChunk, batch);
            cuChunk[first] + Total(ChunksOf(cuChunk, lastChunk, batch)[..n]) == cuChunk[first + n]
  {
    if n > 0 {
      ChunksUpTo(cuChunk, lastChunk, batch, n - 1);
      var chunks := ChunksOf(cuChunk, lastChunk, batch);
      assert chunks[..n][..n - 1] == chunks[..n - 1];
    }
  }

  /** All chunks of a sequence together cover exactly the stretch from its first
      boundary to its last, and the next sequence begins there. */
  lemma ChunksCover(cuChunk: seq<nat>, lastChunk: seq<int>, batch: nat)
    requires ChunkTable(cuChunk, lastChunk) && batch < |lastChunk|
    ensures cuChunk[FirstChunk(lastChunk, batch)] + Total(ChunksOf(cuChunk, lastChunk, batch)) == cuChunk[lastChunk[batch] + 1]
    ensures batch + 1 < |lastChunk| ==>
              cuChunk[FirstChunk(lastChunk, batch + 1)] ==
              cuChunk[FirstChunk(lastChunk, batch)] + Total(ChunksOf(cuChunk, lastChunk, batch))
  {
    var chunks := ChunksOf(cuChunk, lastChunk, batch);
    ChunksUpTo(cuChunk, lastChunk, batch, |chunks|);
    assert chunks[..|chunks|] == chunks;
  }

  // -------------------------------------------------------------- snapshots

  /** No later chunk stores over the state of chunk `c`. */
  ghost predicate KeptSlot(p: Program, c: nat)
    requires p.SlotsFound() && c < |p.Chunks()|
  {
    forall c' :: c < c' < |p.Chunks()| ==> StoreSlot(p, c') != StoreSlot(p, c)
  }

  /** The slot of chunk `c` holds the plain recurrence after the tokens up to the
      end of that chunk. */
  lemma {:induction false} SnapshotIsPlainState(p: Program, start: Vec, tokens: seq<Token>, column: seq<Vec>, c: nat, n: nat)
    requires p.SlotsFound() && c < n <= |p.Chunks()| && |tokens| == Total(p.Chunks())
    requires forall i :: 0 <= i < |p.Chunks()| ==> 0 <= StoreSlot(p, i) < |column|
    requires KeptSlot(p, c)
    ensures ChunkEnd(p, c) <= |tokens|
    ensures ColumnAfter(p, start, tokens, column, n)[StoreSlot(p, c)] == StateAfter(p.k, start, tokens[..ChunkEnd(p, c)])
  {
    TotalGrows(p.Chunks(), c + 1);
    if n > c + 1 {
      SnapshotIsPlainState(p, start, tokens, column, c, n - 1);
      assert StoreSlot(p, n - 1) != StoreSlot(p, c);
    }
  }

  /** The table entries of the scheduled blocks are distinct. Entries beyond the
      last scheduled block, such as padding, may repeat. */
  predicate OwnBlocks(cache: Cache) {
    cache.Blocks? ==> forall i, j :: cache.firstIdx <= i < j <= cache.lastIdx < |cache.row| ==> cache.row[i] != cache.row[j]
  }

  /** Aligned chunks of distinct blocks store to distinct slots. */
  lemma AlignedSlotsAreKept(p: Program, c: nat)
    requires p.SlotsFound() && BlockAligned(p.cache) && OwnBlocks(p.cache) && c < |p.Chunks()| - 1
    requires p.cache.firstIdx + |p.Chunks()| - 2 < p.cache.lastIdx
    ensures StoreSlot(p, c) == p.cache.row[p.cache.firstIdx + c] && KeptSlot(p, c)
  {
    ChunksFillBlocks(p.cache, c);
    forall c' | c < c' < |p.Chunks()| ensures StoreSlot(p, c') != StoreSlot(p, c) {
      if c' < |p.Chunks()| - 1 {
        ChunksFillBlocks(p.cache, c');
      }
    }
  }

  /** With aligned chunks and distinct scheduled blocks, the entry of every block
      that the request completes holds the state after exactly the tokens up to
      the end of that block. */
  lemma BlockHoldsItsPrefix(p: Program, start: Vec, tokens: seq<Token>, column: seq<Vec>, c: nat)
    requires p.SlotsFound() && BlockAligned(p.cache) && OwnBlocks(p.cache)
    requires c < |p.Chunks()| - 1 && |tokens| == Total(p.Chunks())
    requires forall i :: 0 <= i < |p.Chunks()| ==> 0 <= StoreSlot(p, i) < |column|
    requires p.cache.firstIdx + |p.Chunks()| - 2 < p.cache.lastIdx
    ensures p.cache.firstIdx + c < |p.cache.row|
    ensures ChunkEnd(p, c) <= |tokens|
    ensures FirstPosition(p.cache) + ChunkEnd(p, c) == (p.cache.firstIdx + c + 1) * p.cache.blockSize
    ensures 0 <= p.cache.row[p.cache.firstIdx + c] < |column|
    ensures ColumnAfter(p, start, tokens, column, |p.Chunks()|)[p.cache.row[p.cache.firstIdx + c]] ==
            StateAfter(p.k, start, tokens[..ChunkEnd(p, c)])
  {
    AlignedTotal(p.cache, c);
    AlignedSlotsAreKept(p, c);
    assert 0 <= StoreSlot(p, c) < |column|;
    SnapshotIsPlainState(p, start, tokens, column, c, |p.Chunks()|);
  }

  // ----------------------------------------------------------------- resume

  /** Prefix-cache agreement. Program `p` scanned `tokens`; program `q` of the
      same channel starts from the state `p` stored at the end of chunk `c`, and
      scans `rest`. Its outputs, gated outputs, and every state it reaches are
      those of one scan, from the start of `p`, over the prefix and `rest`. */
  lemma ResumeAgrees(p: Program, start: Vec, tokens: seq<Token>, column: seq<Vec>, c: nat, q: Program, rest: seq<Token>)
    requires p.SlotsFound() && c < |p.Chunks()| && |tokens| == Total(p.Chunks()) && KeptSlot(p, c)
    requires forall i :: 0 <= i < |p.Chunks()| ==> 0 <= StoreSlot(p, i) < |column|
    requires q.SlotsFound() && q.k == p.k && q.hasInit && q.LoadSlot() == StoreSlot(p, c)
    ensures ChunkEnd(p, c) <= |tokens|
    ensures var resumed := StartState(q, ColumnAfter(p, start, tokens, column, |p.Chunks()|));
            var prefix := tokens[..ChunkEnd(p, c)];
            && Outs(q.k, resumed, rest) == Outs(p.k, start, prefix + rest)[|prefix|..]
            && Gateds(q.k, resumed, rest) == Gateds(p.k, start, prefix + rest)[|prefix|..]
            && forall k :: 0 <= k <= |rest| ==>
                 StateAfter(q.k, resumed, rest[..k]) == StateAfter(p.k, start, (prefix + rest)[..|prefix| + k])
  {
    SnapshotIsPlainState(p, start, tokens, column, c, |p.Chunks()|);
    var resumed := StartState(q, ColumnAfter(p, start, tokens, column, |p.Chunks()|));
    var prefix := tokens[..ChunkEnd(p, c)];
    forall k | 0 <= k < |rest|
      ensures Outs(q.k, resumed, rest)[k] == Outs(p.k, start, prefix + rest)[|prefix| + k]
      ensures Gateds(q.k, resumed, rest)[k] == Gateds(p.k, start, prefix + rest)[|prefix| + k]
    {
      OutputsSplit(p.k, start, prefix, rest, k);
    }
    forall k | 0 <= k <= |rest|
      ensures StateAfter(q.k, resumed, rest[..k]) == StateAfter(p.k, start, (prefix + rest)[..|prefix| + k])
    {
      ScanSplits(p.k, start, prefix, rest[..k]);
      assert (prefix + rest)[..|prefix| + k] == prefix + rest[..k];
    }
  }
}
