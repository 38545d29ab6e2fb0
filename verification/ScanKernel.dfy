/** One program of _selective_scan_fwd_kernel in vllm/_xpu_ops.py: the scan of
    one sequence and channel in place, chunk by chunk, with state snapshots
    stored in cache blocks. */
module ScanKernel {

  import opened ScanRecurrence
  import Division

  /** How the program finds its cache slots. `Blocks` is prefix-caching mode: a
      row of the block table, the block to start from, the blocks of the first
      and last scheduled token, and the token counts of the chunks. */
  datatype Cache =
    | OwnSlot(batch: nat)
    | Indexed(slot: int)
    | Blocks(row: seq<int>, initIdx: nat, firstIdx: nat, lastIdx: nat, blockSize: nat, chunks: seq<nat>)

  /** A program: its channel, the base addresses of its rows, its cache. */
  datatype Program = Program(k: Arithmetic, wide: Arithmetic, size: nat, lanes: nat, seqLen: nat, uBase: nat, deltaBase: nat, zBase: nat,
                             bBase: nat, cBase: nat, hasZ: bool, hasInit: bool, cache: Cache, nullSlot: int)
  {
    predicate LoadFound() {
      cache.Blocks? ==> cache.initIdx < |cache.row|
    }

    function LoadSlot(): int
      requires LoadFound()
    {
      match cache
      case OwnSlot(batch) => batch
      case Indexed(slot) => slot
      case Blocks(row, initIdx, _, _, _, _) => row[initIdx]
    }

    /** The null slot marks padding: the program returns at once. */
    predicate Skipped()
      requires LoadFound()
    {
      !cache.OwnSlot? && LoadSlot() == nullSlot
    }

    /** The table row has an entry for every block the program looks up. */
    predicate SlotsFound() {
      && LoadFound()
      && (cache.Blocks? ==>
            && cache.lastIdx < |cache.row| && cache.blockSize > 0
            && forall c :: 0 <= c < |cache.chunks| - 1 ==> 0 <= BlockDone(cache, c) < |cache.row|)
    }

    function Chunks(): seq<nat> {
      if cache.Blocks? then cache.chunks else [seqLen]
    }
  }

  /** The padded arithmetic that the program runs is that of the recurrence. */
  ghost predicate Sound(p: Program) {
    p.size <= p.lanes && Simulates(p.wide, p.k, p.size, p.lanes)
  }

  function Total(chunks: seq<nat>): nat {
    if chunks == [] then 0 else Total(chunks[..|chunks| - 1]) + chunks[|chunks| - 1]
  }

  // ------------------------------------------------------ block arithmetic

  /** Where the position counter starts. */
  function FirstPosition(cache: Cache): nat
    requires cache.Blocks?
  {
    var first := if cache.chunks == [] then 0 else cache.chunks[0];
    cache.firstIdx * cache.blockSize +
      if |cache.chunks| > 1 && first < cache.blockSize then cache.blockSize - first else 0
  }

  /** The block that chunk `c` completes, if it is not the last chunk. */
  function BlockDone(cache: Cache, c: nat): int
    requires cache.Blocks? && cache.blockSize > 0 && c < |cache.chunks|
  {
    (FirstPosition(cache) + Total(cache.chunks[..c]) + cache.chunks[c] - 1) / cache.blockSize
  }

  /** The first chunk fills up a block, the middle ones are whole blocks. */
  predicate BlockAligned(cache: Cache) {
    && cache.Blocks? && cache.blockSize > 0
    && (|cache.chunks| > 1 ==> cache.chunks[0] <= cache.blockSize)
    && forall c :: 1 <= c < |cache.chunks| - 1 ==> cache.chunks[c] == cache.blockSize
  }

  lemma {:induction false} AlignedTotal(cache: Cache, c: nat)
    requires BlockAligned(cache) && c < |cache.chunks| - 1
    ensures FirstPosition(cache) + Total(cache.chunks[..c + 1]) == (cache.firstIdx + c + 1) * cache.blockSize
  {
    assert cache.chunks[..c + 1][..c] == cache.chunks[..c];
    if c > 0 {
      AlignedTotal(cache, c - 1);
      assert (cache.firstIdx + c) * cache.blockSize + cache.blockSize == (cache.firstIdx + c + 1) * cache.blockSize;
    } else {
      assert cache.firstIdx * cache.blockSize + cache.blockSize == (cache.firstIdx + 1) * cache.blockSize;
    }
  }

  /** Non-last chunk `c` completes block firstIdx + c, and ends on its boundary. */
  lemma ChunksFillBlocks(cache: Cache, c: nat)
    requires BlockAligned(cache) && c < |cache.chunks| - 1
    ensures BlockDone(cache, c) == cache.firstIdx + c
    ensures (FirstPosition(cache) + Total(cache.chunks[..c + 1])) % cache.blockSize == 0
  {
    AlignedTotal(cache, c);
    assert cache.chunks[..c + 1][..c] == cache.chunks[..c];
    LastOfBlock(cache.firstIdx + c, cache.blockSize);
  }

  lemma LastOfBlock(q: nat, size: nat)
    requires size > 0
    ensures ((q + 1) * size - 1) / size == q
    ensures (q + 1) * size % size == 0
  {
    assert (q + 1) * size - 1 == q * size + (size - 1);
    Division.Quotient(q, size, size - 1);
    Division.Quotient(q + 1, size, 0);
  }

  // ------------------------------------------------------- what a run leaves

  /** The slot that chunk `c` stores its state in. */
  function StoreSlot(p: Program, c: nat): int
    requires p.SlotsFound() && c < |p.Chunks()|
  {
    if !p.cache.Blocks? then p.LoadSlot()
    else if c == |p.cache.chunks| - 1 then p.cache.row[p.cache.lastIdx]
    else p.cache.row[BlockDone(p.cache, c)]
  }

  /** The tokens scanned by the end of chunk `c`. */
  function ChunkEnd(p: Program, c: nat): nat
    requires c < |p.Chunks()|
  {
    Total(p.Chunks()[..c + 1])
  }

  /** One channel's column of cached states after the first `n` chunks. */
  function ColumnAfter(p: Program, start: Vec, tokens: seq<Token>, column: seq<Vec>, n: nat): (after: seq<Vec>)
    requires p.SlotsFound() && n <= |p.Chunks()| && |tokens| == Total(p.Chunks())
    requires forall c :: 0 <= c < |p.Chunks()| ==> 0 <= StoreSlot(p, c) < |column|
    ensures |after| == |column|
  {
    if n == 0 then column
    else
      TotalGrows(p.Chunks(), n);
      ColumnAfter(p, start, tokens, column, n - 1)[
        StoreSlot(p, n - 1) := StateAfter(p.k, start, tokens[..ChunkEnd(p, n - 1)])]
  }

  lemma {:induction false} TotalGrows(chunks: seq<nat>, n: nat)
    requires n <= |chunks|
    ensures Total(chunks[..n]) <= Total(chunks)
    decreases |chunks| - n
  {
    if n < |chunks| {
      TotalGrows(chunks, n + 1);
      assert chunks[..n + 1][..n] == chunks[..n];
    } else {
      assert chunks[..n] == chunks;
    }
  }

  function StartState(p: Program, column: seq<Vec>): Vec
    requires p.SlotsFound() && (p.hasInit ==> 0 <= p.LoadSlot() < |column|)
  {
    if p.hasInit then column[p.LoadSlot()] else Lanes([], p.size)
  }

  // ------------------------------------------------------------ the program

  /** `s` with the cells from `base` on replaced by `w`. */
  function Overwrite(s: seq<real>, base: nat, w: seq<real>): (r: seq<real>)
    requires base + |w| <= |s|
    ensures |r| == |s|
  {
    s[..base] + w + s[base + |w|..]
  }

  lemma OverwriteOneMore(s: seq<real>, base: nat, w: seq<real>, n: nat)
    requires base + |w| <= |s| && n < |w|
    ensures Overwrite(s, base, w[..n])[base + n] == s[base + n]
    ensures Overwrite(s, base, w[..n])[base + n := w[n]] == Overwrite(s, base, w[..n + 1])
  {
    assert w[..n + 1] == w[..n] + [w[n]];
  }

  /** The tensors and the table entries are large enough for the program. */
  ghost predicate Fits(p: Program, u: seq<real>, b: seq<Vec>, c: seq<Vec>, delta: seq<real>, z: seq<real>,
                       column: seq<Vec>)
  {
    && p.SlotsFound() && Sound(p)
    && RowsFit(p, u, b, c, delta, z, Total(p.Chunks()))
    && (p.hasInit ==> 0 <= p.LoadSlot() < |column|)
    && (forall i :: 0 <= i < |p.Chunks()| ==> 0 <= StoreSlot(p, i) < |column|)
    && (forall i :: 0 <= i < |column| ==> |column[i]| == p.size)
    && (forall i :: 0 <= i < |b| ==> |b[i]| == p.size)
    && (forall i :: 0 <= i < |c| ==> |c[i]| == p.size)
  }

  predicate RowsFit(p: Program, u: seq<real>, b: seq<Vec>, c: seq<Vec>, delta: seq<real>, z: seq<real>, n: nat) {
    && p.uBase + n <= |u| && p.bBase + n <= |b| && p.cBase + n <= |c|
    && p.deltaBase + n <= |delta| && (p.hasZ ==> p.zBase + n <= |z|)
  }

  function TokenAt(p: Program, u: seq<real>, b: seq<Vec>, c: seq<Vec>, delta: seq<real>, z: seq<real>, n: nat, k: nat): Token
    requires RowsFit(p, u, b, c, delta, z, n) && k < n
  {
    Token(u[p.uBase + k], delta[p.deltaBase + k], if p.hasZ then z[p.zBase + k] else 0.0, b[p.bBase + k], c[p.cBase + k])
  }

  /** The tokens of the sequence, as they are in memory before the program runs. */
  function Tokens(p: Program, u: seq<real>, b: seq<Vec>, c: seq<Vec>, delta: seq<real>, z: seq<real>): (ts: seq<Token>)
    requires RowsFit(p, u, b, c, delta, z, Total(p.Chunks()))
    ensures |ts| == Total(p.Chunks())
  {
    seq(Total(p.Chunks()), k requires 0 <= k < Total(p.Chunks()) => TokenAt(p, u, b, c, delta, z, Total(p.Chunks()), k))
  }

  // --------------------------------------------------------- where it should go

  /** The course of a program: the padded states before and after each position,
      what each position outputs, and for each chunk where it ends, which slot it
      stores to and the state it stores. */
  datatype Course = Course(states: seq<Vec>, outs: seq<real>, gateds: seq<real>, ends: seq<nat>, slots: seq<int>, saved: seq<Vec>)

  predicate Shaped(p: Program, tr: Course) {
    && |tr.states| == |tr.outs| + 1 && |tr.gateds| == |tr.outs|
    && |tr.slots| == |tr.saved| == |p.Chunks()| && |tr.ends| == |p.Chunks()| + 1
  }

  ghost predicate IsCourse(p: Program, u: seq<real>, b: seq<Vec>, c: seq<Vec>, delta0: seq<real>, z0: seq<real>, tr: Course) {
    && Shaped(p, tr) && RowsFit(p, u, b, c, delta0, z0, |tr.outs|)
    && PositionsFollow(p, u, b, c, delta0, z0, tr) && ChunksFollow(p, tr)
  }

  ghost predicate PositionsFollow(p: Program, u: seq<real>, b: seq<Vec>, c: seq<Vec>, delta0: seq<real>, z0: seq<real>, tr: Course)
    requires Shaped(p, tr) && RowsFit(p, u, b, c, delta0, z0, |tr.outs|)
  {
    forall k {:trigger tr.outs[k]} :: 0 <= k < |tr.outs| ==>
      PositionAt(p, TokenAt(p, u, b, c, delta0, z0, |tr.outs|, k), tr.states[k], tr.states[k + 1], tr.outs[k], tr.gateds[k])
  }

  ghost predicate ChunksFollow(p: Program, tr: Course)
    requires Shaped(p, tr)
  {
    && tr.ends[0] == 0
    && (forall i {:trigger tr.saved[i]} :: 0 <= i < |tr.saved| ==>
          && tr.ends[i + 1] == tr.ends[i] + p.Chunks()[i] && tr.ends[i + 1] <= |tr.outs|
          && tr.saved[i] <= tr.states[tr.ends[i + 1]] && |tr.saved[i]| == p.size)
  }

  predicate PositionAt(p: Program, t: Token, before: Vec, after: Vec, out: real, gated: real) {
    after == p.wide.step(before, t) && out == p.wide.output(after, t) && gated == p.wide.gate(out, t.z)
  }

  /** The padded step and output are those of the recurrence. */
  lemma LaneStep(p: Program, start: Vec, tokens: seq<Token>, pos: nat)
    requires pos < |tokens| && Sound(p) && |start| == p.size
    requires forall i :: 0 <= i < |tokens| ==> TokenFits(p.size, tokens[i])
    ensures |StateAfter(p.k, start, tokens[..pos + 1])| == p.size
    ensures var state := p.wide.step(Lanes(StateAfter(p.k, start, tokens[..pos]), p.lanes), tokens[pos]);
            && state == Lanes(StateAfter(p.k, start, tokens[..pos + 1]), p.lanes)
            && p.wide.output(state, tokens[pos]) == OutAt(p.k, start, tokens, pos)
            && p.wide.gate(OutAt(p.k, start, tokens, pos), tokens[pos].z) == GatedAt(p.k, start, tokens, pos)
  {
    StateKeepsSize(p.k, p.wide, p.size, p.lanes, start, tokens[..pos]);
    StateKeepsSize(p.k, p.wide, p.size, p.lanes, start, tokens[..pos + 1]);
    assert tokens[..pos + 1][..pos] == tokens[..pos];
  }

  lemma LanesPrefix(v: Vec, lanes: nat)
    requires |v| <= lanes
    ensures v <= Lanes(v, lanes) && Lanes(v, lanes)[..|v|] == v
  {
  }

  /** The course that the recurrence sets. */
  ghost function CourseOf(p: Program, start: Vec, tokens: seq<Token>): (tr: Course)
    requires p.SlotsFound() && |tokens| == Total(p.Chunks())
    ensures Shaped(p, tr) && |tr.outs| == |tokens|
  {
    Course(seq(|tokens| + 1, k requires 0 <= k <= |tokens| => Lanes(StateAfter(p.k, start, tokens[..k]), p.lanes)),
           Outs(p.k, start, tokens), Gateds(p.k, start, tokens),
           seq(|p.Chunks()| + 1, i requires 0 <= i <= |p.Chunks()| => Total(p.Chunks()[..i])),
           seq(|p.Chunks()|, i requires 0 <= i < |p.Chunks()| => StoreSlot(p, i)),
           seq(|p.Chunks()|, i requires 0 <= i < |p.Chunks()| => StateAtChunk(p, start, tokens, i)))
  }

  function StateAtChunk(p: Program, start: Vec, tokens: seq<Token>, i: nat): Vec
    requires i < |p.Chunks()| && |tokens| == Total(p.Chunks())
  {
    TotalGrows(p.Chunks(), i + 1);
    StateAfter(p.k, start, tokens[..ChunkEnd(p, i)])
  }

  lemma CoursePosition(p: Program, start: Vec, tokens: seq<Token>, k: nat)
    requires p.SlotsFound() && Sound(p) && |start| == p.size && k < |tokens| == Total(p.Chunks())
    requires forall i :: 0 <= i < |tokens| ==> TokenFits(p.size, tokens[i])
    ensures var tr := CourseOf(p, start, tokens);
            PositionAt(p, tokens[k], tr.states[k], tr.states[k + 1], tr.outs[k], tr.gateds[k])
  {
    LaneStep(p, start, tokens, k);
  }

  lemma CourseChunk(p: Program, start: Vec, tokens: seq<Token>, i: nat)
    requires p.SlotsFound() && Sound(p) && |start| == p.size && i < |p.Chunks()| && |tokens| == Total(p.Chunks())
    requires forall i :: 0 <= i < |tokens| ==> TokenFits(p.size, tokens[i])
    ensures var tr := CourseOf(p, start, tokens);
            && tr.ends[i + 1] == tr.ends[i] + p.Chunks()[i] && tr.ends[i + 1] <= |tr.outs|
            && tr.saved[i] <= tr.states[tr.ends[i + 1]] && |tr.saved[i]| == p.size
  {
    ChunkEndIs(p, i);
    StateKeepsSize(p.k, p.wide, p.size, p.lanes, start, tokens[..ChunkEnd(p, i)]);
    LanesPrefix(StateAfter(p.k, start, tokens[..ChunkEnd(p, i)]), p.lanes);
  }

  lemma CourseIsOne(p: Program, u: seq<real>, b: seq<Vec>, c: seq<Vec>, delta0: seq<real>, z0: seq<real>, start: Vec)
    requires p.SlotsFound() && Sound(p) && |start| == p.size && RowsFit(p, u, b, c, delta0, z0, Total(p.Chunks()))
    requires forall i :: 0 <= i < Total(p.Chunks()) ==> TokenFits(p.size, Tokens(p, u, b, c, delta0, z0)[i])
    ensures IsCourse(p, u, b, c, delta0, z0, CourseOf(p, start, Tokens(p, u, b, c, delta0, z0)))
  {
    CoursePositions(p, u, b, c, delta0, z0, start);
    CourseChunks(p, start, Tokens(p, u, b, c, delta0, z0));
  }

  lemma CoursePositions(p: Program, u: seq<real>, b: seq<Vec>, c: seq<Vec>, delta0: seq<real>, z0: seq<real>, start: Vec)
    requires p.SlotsFound() && Sound(p) && |start| == p.size && RowsFit(p, u, b, c, delta0, z0, Total(p.Chunks()))
    requires forall i :: 0 <= i < Total(p.Chunks()) ==> TokenFits(p.size, Tokens(p, u, b, c, delta0, z0)[i])
    ensures PositionsFollow(p, u, b, c, delta0, z0, CourseOf(p, start, Tokens(p, u, b, c, delta0, z0)))
  {
    var tokens := Tokens(p, u, b, c, delta0, z0);
    var tr := CourseOf(p, start, tokens);
    forall k {:trigger tr.outs[k]} | 0 <= k < |tr.outs|
      ensures PositionAt(p, TokenAt(p, u, b, c, delta0, z0, |tr.outs|, k), tr.states[k], tr.states[k + 1], tr.outs[k], tr.gateds[k])
    {
      assert tokens[k] == TokenAt(p, u, b, c, delta0, z0, |tr.outs|, k);
      CoursePosition(p, start, tokens, k);
    }
  }

  lemma CourseChunks(p: Program, start: Vec, tokens: seq<Token>)
    requires p.SlotsFound() && Sound(p) && |start| == p.size && |tokens| == Total(p.Chunks())
    requires forall i :: 0 <= i < |tokens| ==> TokenFits(p.size, tokens[i])
    ensures ChunksFollow(p, CourseOf(p, start, tokens))
  {
    var tr := CourseOf(p, start, tokens);
    forall i {:trigger tr.saved[i]} | 0 <= i < |tr.saved|
      ensures tr.ends[i + 1] == tr.ends[i] + p.Chunks()[i] && tr.ends[i + 1] <= |tr.outs|
      ensures tr.saved[i] <= tr.states[tr.ends[i + 1]] && |tr.saved[i]| == p.size
    {
      CourseChunk(p, start, tokens, i);
    }
  }

  lemma ChunkEndIs(p: Program, chunk: nat)
    requires chunk < |p.Chunks()|
    ensures ChunkEnd(p, chunk) == Total(p.Chunks()[..chunk]) + p.Chunks()[chunk] <= Total(p.Chunks())
  {
    TotalGrows(p.Chunks(), chunk + 1);
    assert p.Chunks()[..chunk + 1][..chunk] == p.Chunks()[..chunk];
  }

  function Put(column: seq<Vec>, slot: int, v: Vec): (after: seq<Vec>)
    ensures |after| == |column|
  {
    if 0 <= slot < |column| then column[slot := v] else column
  }

  /** One channel's column after the first `n` stores. */
  function ColumnOf(slots: seq<int>, saved: seq<Vec>, column: seq<Vec>, n: nat): (after: seq<Vec>)
    requires n <= |slots| && n <= |saved|
    ensures |after| == |column|
  {
    if n == 0 then column else Put(ColumnOf(slots, saved, column, n - 1), slots[n - 1], saved[n - 1])
  }

  lemma {:induction false} ColumnOfCourse(p: Program, start: Vec, tokens: seq<Token>, column: seq<Vec>, n: nat)
    requires p.SlotsFound() && n <= |p.Chunks()| && |tokens| == Total(p.Chunks())
    requires forall c :: 0 <= c < |p.Chunks()| ==> 0 <= StoreSlot(p, c) < |column|
    ensures var tr := CourseOf(p, start, tokens);
            ColumnOf(tr.slots, tr.saved, column, n) == ColumnAfter(p, start, tokens, column, n)
    decreases n
  {
    if n > 0 {
      ColumnOfCourse(p, start, tokens, column, n - 1);
      assert 0 <= StoreSlot(p, n - 1) < |column|;
    }
  }

  // ------------------------------------------------------------ the inner loop

  /** The two rows after `done` positions. */
  ghost predicate ScannedTo(p: Program, tr: Course, delta0: seq<real>, z0: seq<real>, delta: seq<real>, z: seq<real>, done: nat)
    requires done <= |tr.outs| == |tr.gateds|
    requires p.deltaBase + |tr.outs| <= |delta0| && (p.hasZ ==> p.zBase + |tr.outs| <= |z0|)
  {
    && delta == Overwrite(delta0, p.deltaBase, tr.outs[..done])
    && z == if p.hasZ then Overwrite(z0, p.zBase, tr.gateds[..done]) else z0
  }

  /** The body of the inner loop: one position. */
  method ScanPosition(p: Program, u: seq<real>, b: seq<Vec>, c: seq<Vec>, delta: array<real>, z: array<real>,
                      state: Vec, pos: nat, ghost tr: Course, ghost delta0: seq<real>, ghost z0: seq<real>)
    returns (state': Vec)
    requires delta != z && pos < |tr.outs| == |tr.gateds| < |tr.states| && RowsFit(p, u, b, c, delta0, z0, |tr.outs|)
    requires PositionAt(p, TokenAt(p, u, b, c, delta0, z0, |tr.outs|, pos), state, tr.states[pos + 1], tr.outs[pos], tr.gateds[pos])
    requires ScannedTo(p, tr, delta0, z0, delta[..], z[..], pos)
    modifies delta, z
    ensures state' == tr.states[pos + 1]
    ensures ScannedTo(p, tr, delta0, z0, delta[..], z[..], pos + 1)
  {
    OverwriteOneMore(delta0, p.deltaBase, tr.outs, pos);
    var t := Token(u[p.uBase + pos], delta[p.deltaBase + pos], 0.0, b[p.bBase + pos], c[p.cBase + pos]);
    if p.hasZ {
      OverwriteOneMore(z0, p.zBase, tr.gateds, pos);
      t := t.(z := z[p.zBase + pos]);
    }
    assert t == TokenAt(p, u, b, c, delta0, z0, |tr.outs|, pos);
    state' := p.wide.step(state, t);
    var out := p.wide.output(state', t);
    ghost var before, zBefore := delta[..], z[..];
    delta[p.deltaBase + pos] := out;
    assert delta[..] == before[p.deltaBase + pos := tr.outs[pos]];
    if p.hasZ {
      z[p.zBase + pos] := p.wide.gate(out, t.z);
      assert z[..] == zBefore[p.zBase + pos := tr.gateds[pos]];
    }
  }

  lemma PositionOf(p: Program, u: seq<real>, b: seq<Vec>, c: seq<Vec>, delta0: seq<real>, z0: seq<real>, tr: Course, pos: nat)
    requires IsCourse(p, u, b, c, delta0, z0, tr) && pos < |tr.outs|
    ensures PositionAt(p, TokenAt(p, u, b, c, delta0, z0, |tr.outs|, pos), tr.states[pos], tr.states[pos + 1], tr.outs[pos], tr.gateds[pos])
  {
    assert tr.outs[pos] in tr.outs;
  }

  /** The inner loop: one chunk, in place. */
  method ScanChunk(p: Program, u: seq<real>, b: seq<Vec>, c: seq<Vec>, delta: array<real>, z: array<real>,
                   state: Vec, done: nat, count: nat, ghost tr: Course, ghost delta0: seq<real>, ghost z0: seq<real>)
    returns (state': Vec)
    requires delta != z && IsCourse(p, u, b, c, delta0, z0, tr)
    requires done + count <= |tr.outs| && state == tr.states[done]
    requires ScannedTo(p, tr, delta0, z0, delta[..], z[..], done)
    modifies delta, z
    ensures state' == tr.states[done + count]
    ensures ScannedTo(p, tr, delta0, z0, delta[..], z[..], done + count)
  {
    state' := state;
    for pos := done to done + count
      invariant state' == tr.states[pos]
      invariant ScannedTo(p, tr, delta0, z0, delta[..], z[..], pos)
    {
      PositionOf(p, u, b, c, delta0, z0, tr, pos);
      state' := ScanPosition(p, u, b, c, delta, z, state', pos, tr, delta0, z0);
    }
  }

  // ------------------------------------------------------------ the outer loop

  /** One channel's column of the cached states. */
  ghost function Column(states: array2<Vec>, dim: nat): (column: seq<Vec>)
    requires dim < states.Length1
    reads states
    ensures |column| == states.Length0
  {
    seq(states.Length0, i requires 0 <= i < states.Length0 reads states => states[i, dim])
  }

  method StoreState(states: array2<Vec>, dim: nat, slot: int, v: Vec)
    requires 0 <= slot < states.Length0 && dim < states.Length1
    modifies states
    ensures Column(states, dim) == old(Column(states, dim))[slot := v]
    ensures forall d: nat :: d < states.Length1 && d != dim ==> Column(states, d) == old(Column(states, d))
  {
    states[slot, dim] := v;
  }

  /** The slot of a chunk, found as the kernel finds it. */
  method NextSlot(p: Program, chunk: nat, ghost processed: nat, position: nat) returns (slot: int, position': nat)
    requires p.SlotsFound() && chunk < |p.Chunks()| && processed == Total(p.Chunks()[..chunk])
    requires p.cache.Blocks? ==> position == FirstPosition(p.cache) + processed
    ensures slot == StoreSlot(p, chunk)
    ensures p.cache.Blocks? ==> position' == position + p.Chunks()[chunk]
  {
    slot, position' := p.LoadSlot(), position;
    if p.cache.Blocks? {
      var tokens := p.cache.chunks[chunk];
      if chunk == |p.cache.chunks| - 1 {
        slot := p.cache.row[p.cache.lastIdx];
      } else {
        var blockDone := (position + tokens - 1) / p.cache.blockSize;
        assert blockDone == BlockDone(p.cache, chunk);
        slot := p.cache.row[blockDone];
      }
      position' := position + tokens;
    }
  }

  /** The slots and ends of a course are those of the program. */
  ghost predicate SlotsFit(p: Program, tr: Course, column: seq<Vec>)
    requires p.SlotsFound() && Shaped(p, tr)
  {
    forall i {:trigger tr.slots[i]} :: 0 <= i < |tr.slots| ==>
      tr.slots[i] == StoreSlot(p, i) && 0 <= tr.slots[i] < |column| && tr.ends[i] == Total(p.Chunks()[..i])
  }

  /** What holds after the first `chunk` chunks. */
  ghost predicate Progress(p: Program, tr: Course, delta0: seq<real>, z0: seq<real>, column0: seq<Vec>,
                           delta: seq<real>, z: seq<real>, column: seq<Vec>, chunk: nat, state: Vec, position: nat)
    requires Shaped(p, tr) && chunk <= |p.Chunks()|
    requires p.deltaBase + |tr.outs| <= |delta0| && (p.hasZ ==> p.zBase + |tr.outs| <= |z0|)
  {
    && tr.ends[chunk] <= |tr.outs|
    && (p.cache.Blocks? ==> position == FirstPosition(p.cache) + tr.ends[chunk])
    && state == tr.states[tr.ends[chunk]]
    && ScannedTo(p, tr, delta0, z0, delta, z, tr.ends[chunk])
    && column == ColumnOf(tr.slots, tr.saved, column0, chunk)
  }

  /** The body of the outer loop: scan a chunk, find its slot, store the state. */
  method DoChunk(p: Program, dim: nat, u: seq<real>, b: seq<Vec>, c: seq<Vec>,
                 delta: array<real>, z: array<real>, states: array2<Vec>,
                 chunk: nat, state: Vec, processed: nat, position: nat,
                 ghost tr: Course, ghost delta0: seq<real>, ghost z0: seq<real>, ghost column0: seq<Vec>)
    returns (state': Vec, position': nat)
    requires delta != z && dim < states.Length1 && p.SlotsFound() && chunk < |p.Chunks()|
    requires IsCourse(p, u, b, c, delta0, z0, tr) && SlotsFit(p, tr, column0) && processed == tr.ends[chunk]
    requires Progress(p, tr, delta0, z0, column0, delta[..], z[..], Column(states, dim), chunk, state, position)
    modifies delta, z, states
    ensures tr.ends[chunk + 1] == processed + p.Chunks()[chunk]
    ensures Progress(p, tr, delta0, z0, column0, delta[..], z[..], Column(states, dim), chunk + 1, state', position')
    ensures forall d: nat :: d < states.Length1 && d != dim ==> Column(states, d) == old(Column(states, d))
  {
    var count, size := p.Chunks()[chunk], p.size;
    assert tr.slots[chunk] == StoreSlot(p, chunk);
    assert |tr.saved[chunk]| == p.size;
    state' := ScanChunk(p, u, b, c, delta, z, state, processed, count, tr, delta0, z0);
    var slot;
    slot, position' := NextSlot(p, chunk, processed, position);
    assert state'[..size] == tr.saved[chunk];
    StoreState(states, dim, slot, state'[..size]);
  }

  /** The whole program. It scans its sequence in place and stores the state at
      every chunk end, as the recurrence has it; a padding program does nothing. */
  method ScanProgram(p: Program, dim: nat, u: seq<real>, b: seq<Vec>, c: seq<Vec>,
                     delta: array<real>, z: array<real>, states: array2<Vec>)
    requires delta != z && dim < states.Length1 && p.LoadFound()
    requires p.Skipped() || Fits(p, u, b, c, delta[..], z[..], Column(states, dim))
    modifies delta, z, states
    ensures p.Skipped() ==>
              delta[..] == old(delta[..]) && z[..] == old(z[..]) && Column(states, dim) == old(Column(states, dim))
    ensures !p.Skipped() ==>
              p.SlotsFound() && Scanned(p, StartState(p, old(Column(states, dim))), Tokens(p, u, b, c, old(delta[..]), old(z[..])),
                      old(delta[..]), old(z[..]), old(Column(states, dim)), delta[..], z[..], Column(states, dim))
    ensures forall d: nat :: d < states.Length1 && d != dim ==> Column(states, d) == old(Column(states, d))
  {
    if !p.Skipped() {
      ScanSequence(p, dim, u, b, c, delta, z, states);
    }
  }

  /** What the program leaves behind. */
  ghost predicate Scanned(p: Program, start: Vec, tokens: seq<Token>, delta0: seq<real>, z0: seq<real>,
                          column0: seq<Vec>, delta: seq<real>, z: seq<real>, column: seq<Vec>)
    requires p.SlotsFound() && |tokens| == Total(p.Chunks())
    requires p.deltaBase + |tokens| <= |delta0| && (p.hasZ ==> p.zBase + |tokens| <= |z0|)
    requires forall c :: 0 <= c < |p.Chunks()| ==> 0 <= StoreSlot(p, c) < |column0|
  {
    && delta == Overwrite(delta0, p.deltaBase, Outs(p.k, start, tokens))
    && z == (if p.hasZ then Overwrite(z0, p.zBase, Gateds(p.k, start, tokens)) else z0)
    && column == ColumnAfter(p, start, tokens, column0, |p.Chunks()|)
  }

  method ScanSequence(p: Program, dim: nat, u: seq<real>, b: seq<Vec>, c: seq<Vec>,
                      delta: array<real>, z: array<real>, states: array2<Vec>)
    requires delta != z && dim < states.Length1
    requires Fits(p, u, b, c, delta[..], z[..], Column(states, dim))
    modifies delta, z, states
    ensures Scanned(p, StartState(p, old(Column(states, dim))), Tokens(p, u, b, c, old(delta[..]), old(z[..])),
                    old(delta[..]), old(z[..]), old(Column(states, dim)), delta[..], z[..], Column(states, dim))
    ensures forall d: nat :: d < states.Length1 && d != dim ==> Column(states, d) == old(Column(states, d))
  {
    var state := Lanes([], p.lanes);
    if p.hasInit {
      state := Lanes(states[p.LoadSlot(), dim], p.lanes);
    }
    ghost var delta0, z0, column0 := delta[..], z[..], Column(states, dim);
    ghost var start := StartState(p, column0);
    ghost var tr := Setting(p, u, b, c, delta0, z0, column0, state);
    ScanChunks(p, dim, u, b, c, delta, z, states, state, tr, delta0, z0, column0);
    CourseLength(p, start, Tokens(p, u, b, c, delta0, z0));
    CourseEnd(p, start, Tokens(p, u, b, c, delta0, z0), delta0, z0, column0, delta[..], z[..], Column(states, dim));
  }

  /** The course of a program that fits, and its start on it. */
  lemma Setting(p: Program, u: seq<real>, b: seq<Vec>, c: seq<Vec>, delta0: seq<real>, z0: seq<real>, column0: seq<Vec>, state: Vec)
    returns (tr: Course)
    requires Fits(p, u, b, c, delta0, z0, column0)
    requires state == if p.hasInit then Lanes(column0[p.LoadSlot()], p.lanes) else Lanes([], p.lanes)
    ensures tr == CourseOf(p, StartState(p, column0), Tokens(p, u, b, c, delta0, z0))
    ensures IsCourse(p, u, b, c, delta0, z0, tr) && SlotsFit(p, tr, column0) && state == tr.states[0]
  {
    var start, tokens := StartState(p, column0), Tokens(p, u, b, c, delta0, z0);
    tr := CourseOf(p, start, tokens);
    CourseIsOne(p, u, b, c, delta0, z0, start);
    assert tokens[..0] == [];
    assert Lanes(Lanes([], p.size), p.lanes) == Lanes([], p.lanes);
  }

  lemma CourseEnd(p: Program, start: Vec, tokens: seq<Token>, delta0: seq<real>, z0: seq<real>, column0: seq<Vec>,
                  delta: seq<real>, z: seq<real>, column: seq<Vec>)
    requires p.SlotsFound() && |tokens| == Total(p.Chunks())
    requires p.deltaBase + |tokens| <= |delta0| && (p.hasZ ==> p.zBase + |tokens| <= |z0|)
    requires forall c :: 0 <= c < |p.Chunks()| ==> 0 <= StoreSlot(p, c) < |column0|
    requires var tr := CourseOf(p, start, tokens);
             && ScannedTo(p, tr, delta0, z0, delta, z, |tokens|)
             && column == ColumnOf(tr.slots, tr.saved, column0, |p.Chunks()|)
    ensures Scanned(p, start, tokens, delta0, z0, column0, delta, z, column)
  {
    RowsAtEnd(p, start, tokens, delta0, z0, delta, z);
    ColumnOfCourse(p, start, tokens, column0, |p.Chunks()|);
  }

  lemma RowsAtEnd(p: Program, start: Vec, tokens: seq<Token>, delta0: seq<real>, z0: seq<real>, delta: seq<real>, z: seq<real>)
    requires p.SlotsFound() && |tokens| == Total(p.Chunks())
    requires p.deltaBase + |tokens| <= |delta0| && (p.hasZ ==> p.zBase + |tokens| <= |z0|)
    requires ScannedTo(p, CourseOf(p, start, tokens), delta0, z0, delta, z, |tokens|)
    ensures delta == Overwrite(delta0, p.deltaBase, Outs(p.k, start, tokens))
    ensures z == if p.hasZ then Overwrite(z0, p.zBase, Gateds(p.k, start, tokens)) else z0
  {
    var outs, gateds := Outs(p.k, start, tokens), Gateds(p.k, start, tokens);
    assert outs[..|tokens|] == outs && gateds[..|tokens|] == gateds;
  }

  lemma CourseLength(p: Program, start: Vec, tokens: seq<Token>)
    requires p.SlotsFound() && |tokens| == Total(p.Chunks())
    ensures CourseOf(p, start, tokens).ends[|p.Chunks()|] == |tokens|
  {
    assert p.Chunks()[..|p.Chunks()|] == p.Chunks();
  }

  lemma StartOfCourse(p: Program, tr: Course, delta0: seq<real>, z0: seq<real>, column0: seq<Vec>, state: Vec, position: nat)
    requires Shaped(p, tr) && tr.ends[0] == 0 && state == tr.states[0]
    requires p.deltaBase + |tr.outs| <= |delta0| && (p.hasZ ==> p.zBase + |tr.outs| <= |z0|)
    requires p.cache.Blocks? ==> position == FirstPosition(p.cache)
    ensures Progress(p, tr, delta0, z0, column0, delta0, z0, column0, 0, state, position)
  {
    assert tr.outs[..0] == [] && tr.gateds[..0] == [];
    assert Overwrite(delta0, p.deltaBase, []) == delta0;
    assert p.hasZ ==> Overwrite(z0, p.zBase, []) == z0;
  }

  /** The outer loop. */
  method ScanChunks(p: Program, dim: nat, u: seq<real>, b: seq<Vec>, c: seq<Vec>,
                    delta: array<real>, z: array<real>, states: array2<Vec>, state0: Vec,
                    ghost tr: Course, ghost delta0: seq<real>, ghost z0: seq<real>, ghost column0: seq<Vec>)
    requires delta != z && dim < states.Length1 && p.SlotsFound()
    requires IsCourse(p, u, b, c, delta0, z0, tr) && SlotsFit(p, tr, column0) && state0 == tr.states[0]
    requires delta0 == delta[..] && z0 == z[..] && column0 == Column(states, dim)
    modifies delta, z, states
    ensures tr.ends[|p.Chunks()|] <= |tr.outs|
    ensures ScannedTo(p, tr, delta0, z0, delta[..], z[..], tr.ends[|p.Chunks()|])
    ensures Column(states, dim) == ColumnOf(tr.slots, tr.saved, column0, |p.Chunks()|)
    ensures forall d: nat :: d < states.Length1 && d != dim ==> Column(states, d) == old(Column(states, d))
  {
    var position: nat := if p.cache.Blocks? then FirstPosition(p.cache) else 0;
    var state, chunks, processed := state0, p.Chunks(), 0;
    StartOfCourse(p, tr, delta0, z0, column0, state, position);
    for chunk := 0 to |chunks|
      invariant processed == tr.ends[chunk]
      invariant Progress(p, tr, delta0, z0, column0, delta[..], z[..], Column(states, dim), chunk, state, position)
      invariant forall d: nat :: d < states.Length1 && d != dim ==> Column(states, d) == old(Column(states, d))
    {
      state, position := DoChunk(p, dim, u, b, c, delta, z, states, chunk, state, processed, position,
                                 tr, delta0, z0, column0);
      processed := processed + chunks[chunk];
    }
  }
}
